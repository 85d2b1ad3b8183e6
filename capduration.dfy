/**
 * `capTradeDuration` of src/indicator.cpp: rewrites a position indicator in
 * place so that every position is held for at least a minimum number of
 * bars and at most a maximum, per side. A cap of -1 is switched off. With
 * `waitNewSignal`, once a position has been stretched over a change of the
 * signal, the bars carrying that changed signal are flattened until the
 * signal changes again.
 */
module CapDuration {
  import opened Common

  /** The four caps of the source, in its parameter order. */
  datatype Caps = Caps(shortMin: int, longMin: int, shortMax: int, longMax: int)

  function MinCap(c: Caps, ss: int): int { if ss == -1 then c.shortMin else c.longMin }
  function MaxCap(c: Caps, ss: int): int { if ss == -1 then c.shortMax else c.longMax }

  /** The sign of a cell; the NA cells it is asked about never occur after
      the leading NAs (see NoGaps). */
  function SignOf(x: Val): (r: int)
    ensures -1 <= r <= 1
    ensures x.Num? && x.v != 0.0 ==> r != 0
  {
    if x.Num? then Sign(x.v) else 0
  }

  /** Where the scan is: looking for a position, inside the minimum-cap
      stretch, flattening while waiting for a new signal, inside the
      maximum-cap stretch, or passing over a position whose side has no cap. */
  datatype Phase =
    | Seek
    | MinRun(ss: int, minCap: int, maxCap: int, daysIn: int, done: bool, prev: int)
    | Wait(prev: int)
    | MaxRun(ss: int, maxCap: int, daysIn: int)
    | Hold(ss: int)

  /** Which phase consumes the cell `x`, and a rank that falls on every
      step that does not consume it. */
  function Rank(ph: Phase, x: Val): nat
  {
    match ph
    case Seek => 3
    case MinRun(ss, _, _, daysIn, done, _) => if daysIn == 1 && !done && SignOf(x) == ss then 2 else 6
    case Wait(prev) => if SignOf(x) == prev then 1 else 4
    case MaxRun(ss, _, _) => if SignOf(x) == ss then 1 else 4
    case Hold(ss) => if SignOf(x) == ss then 1 else 4
  }

  /** The rewritten cells from `ii` on, scanning from phase `ph`. Each cell
      is read before it is written, so the cells are those of the input. */
  function Out(s: seq<Val>, c: Caps, wait: bool, ii: int, ph: Phase): (r: seq<Val>)
    requires 0 <= ii <= |s|
    requires ph.MinRun? ==> ph.ss == 1 || ph.ss == -1
    ensures |r| == |s| - ii
    decreases |s| - ii, if ii < |s| then Rank(ph, s[ii]) else 0
  {
    if ii == |s| then []
    else
      var x := s[ii];
      match ph
      case Seek =>
        if x == Num(0.0) then [x] + Out(s, c, wait, ii + 1, Seek)
        else
          var ss := SignOf(x);
          if ss != 1 && ss != -1 then [x] + Out(s, c, wait, ii + 1, Seek)
          else if MinCap(c, ss) != -1 || MaxCap(c, ss) != -1 then
            Out(s, c, wait, ii, MinRun(ss, MinCap(c, ss), MaxCap(c, ss), 1, false, -10))
          else Out(s, c, wait, ii, Hold(ss))
      case MinRun(ss, minCap, maxCap, daysIn, done, prev) =>
        if daysIn <= minCap then
          var indSign := SignOf(x);
          [if indSign != ss then Num(ss as real) else x]
            + Out(s, c, wait, ii + 1, MinRun(ss, minCap, maxCap, daysIn + 1, done || indSign != ss, indSign))
        else if done && wait then Out(s, c, wait, ii, Wait(prev))
        else Out(s, c, wait, ii, MaxRun(ss, maxCap, daysIn))
      case Wait(prev) =>
        if SignOf(x) == prev then [Num(0.0)] + Out(s, c, wait, ii + 1, Wait(prev))
        else Out(s, c, wait, ii, Seek)
      case MaxRun(ss, maxCap, daysIn) =>
        if SignOf(x) == ss then
          [if maxCap > -1 && daysIn > maxCap then Num(0.0) else x] + Out(s, c, wait, ii + 1, MaxRun(ss, maxCap, daysIn + 1))
        else Out(s, c, wait, ii, Seek)
      case Hold(ss) =>
        if SignOf(x) == ss then [x] + Out(s, c, wait, ii + 1, Hold(ss))
        else Out(s, c, wait, ii, Seek)
  }

  function AllOff(c: Caps): bool
  {
    c.shortMax < 0 && c.longMax < 0 && c.shortMin < 0 && c.longMin < 0
  }

  /** The indicator after `capTradeDuration`: unchanged when every cap is
      negative, otherwise the leading NAs followed by the scan's cells. */
  function Capped(s: seq<Val>, c: Caps, wait: bool): (r: seq<Val>)
    ensures |r| == |s|
  {
    if AllOff(c) then s
    else
      var lead := LeadingNACount(s);
      s[..lead] + Out(s, c, wait, lead, Seek)
  }

  /** The scan has reached cell `ii`: the cells before it hold their final
      values, the cells from it on still hold the input, and `tail` is what
      the scan will write from `ii` on. */
  ghost predicate Scanned(a: seq<Val>, s: seq<Val>, final: seq<Val>, ii: int, tail: seq<Val>)
  {
    && |a| == |s| == |final|
    && 0 <= ii <= |s|
    && a[..ii] == final[..ii]
    && a[ii..] == s[ii..]
    && final[ii..] == tail
  }

  /** The cell the scan is on still holds its input value. */
  lemma SuffixHead(a: seq<Val>, s: seq<Val>, ii: int)
    requires 0 <= ii < |a| && ii <= |s| && a[ii..] == s[ii..]
    ensures ii < |s| && a[ii] == s[ii]
  {
    assert a[ii..][0] == a[ii];
    assert s[ii..][0] == s[ii];
  }

  /** Writing the cell the scan is on moves the scan one cell on. */
  lemma Consumed(a: seq<Val>, s: seq<Val>, final: seq<Val>, ii: int, w: Val, tail: seq<Val>)
    requires Scanned(a, s, final, ii, [w] + tail)
    ensures ii < |a| && Scanned(a[ii := w], s, final, ii + 1, tail)
  {
    assert final[ii..][0] == w;
    assert final[ii + 1..] == final[ii..][1..];
    assert a[ii := w][..ii + 1] == a[..ii] + [w];
    assert final[..ii + 1] == final[..ii] + [w];
    assert a[ii := w][ii + 1..] == a[ii + 1..];
    assert a[ii + 1..] == a[ii..][1..];
    assert s[ii + 1..] == s[ii..][1..];
  }

  /** `capTradeDuration`, in place. */
  method CapTradeDuration(indicator: array<Val>, c: Caps, waitNewSignal: bool)
    requires NoGaps(indicator[..])
    modifies indicator
    ensures indicator[..] == Capped(old(indicator[..]), c, waitNewSignal)
  {
    if c.shortMax < 0 && c.longMax < 0 && c.shortMin < 0 && c.longMin < 0 {
      return;
    }
    ghost var s := indicator[..];
    ghost var lead := LeadingNACount(s);
    ghost var final := Capped(s, c, waitNewSignal);
    var n := indicator.Length;
    var ii := 0;
    while ii < n && indicator[ii].NA?
      invariant ii <= lead
    {
      ii := ii + 1;
    }
    assert Scanned(indicator[..], s, final, ii, Out(s, c, waitNewSignal, ii, Seek));
    NumbersAfterLeading(s);
    while ii < n
      invariant lead <= ii <= n
      invariant Scanned(indicator[..], s, final, ii, Out(s, c, waitNewSignal, ii, Seek))
      decreases n - ii
    {
      ii := SkipFlat(indicator, s, c, waitNewSignal, final, ii);
      if ii == n {
        break;
      }
      assert s[ii] == indicator[ii] && s[ii].Num?;
      ii := CapPosition(indicator, s, c, waitNewSignal, final, ii);
    }
    assert indicator[..] == indicator[..n];
  }

  /** One position, from its opening cell `ii0` on: its side's caps are
      looked up and its stretches scanned. */
  method CapPosition(indicator: array<Val>, ghost s: seq<Val>, c: Caps, wait: bool, ghost final: seq<Val>, ii0: int)
    returns (ii: int)
    requires 0 <= ii0 < |s| == indicator.Length
    requires s[ii0].Num? && s[ii0] != Num(0.0)
    requires Scanned(indicator[..], s, final, ii0, Out(s, c, wait, ii0, Seek))
    modifies indicator
    ensures ii0 < ii <= |s|
    ensures Scanned(indicator[..], s, final, ii, Out(s, c, wait, ii, Seek))
  {
    ii := ii0;
    var n := indicator.Length;
    var ss := SignOf(indicator[ii]);
    var minCap, maxCap;
    if ss == -1 {
      minCap := c.shortMin;
      maxCap := c.shortMax;
    } else if ss == 1 {
      minCap := c.longMin;
      maxCap := c.longMax;
    }
    if minCap != -1 || maxCap != -1 {
      assert Out(s, c, wait, ii, Seek) == Out(s, c, wait, ii, MinRun(ss, minCap, maxCap, 1, false, -10));
      var daysIn, done, prevIndSign;
      ii, daysIn, done, prevIndSign := MinStretch(indicator, s, c, wait, final, ii, ss, minCap, maxCap);
      if done && wait {
        assert ii < n ==> Out(s, c, wait, ii, MinRun(ss, minCap, maxCap, daysIn, done, prevIndSign)) == Out(s, c, wait, ii, Wait(prevIndSign));
        ii := WaitStretch(indicator, s, c, wait, final, ii, prevIndSign);
      }
      if !done || !wait {
        assert ii < n ==> Out(s, c, wait, ii, MinRun(ss, minCap, maxCap, daysIn, done, prevIndSign)) == Out(s, c, wait, ii, MaxRun(ss, maxCap, daysIn));
        ii := MaxStretch(indicator, s, c, wait, final, ii, ss, maxCap, daysIn);
      }
    } else {
      assert Out(s, c, wait, ii, Seek) == Out(s, c, wait, ii, Hold(ss));
      ii := HoldStretch(indicator, s, c, wait, final, ii, ss);
    }
  }

  /** Flat cells are passed over while looking for a position. */
  method SkipFlat(indicator: array<Val>, ghost s: seq<Val>, c: Caps, wait: bool, ghost final: seq<Val>, ii0: int)
    returns (ii: int)
    requires 0 <= ii0 <= |s| == indicator.Length
    requires Scanned(indicator[..], s, final, ii0, Out(s, c, wait, ii0, Seek))
    ensures ii0 <= ii <= |s|
    ensures Scanned(indicator[..], s, final, ii, Out(s, c, wait, ii, Seek))
    ensures ii < |s| ==> indicator[ii] != Num(0.0)
  {
    ii := ii0;
    var n := indicator.Length;
    while ii < n && indicator[ii] == Num(0.0)
      invariant ii0 <= ii <= n
      invariant Scanned(indicator[..], s, final, ii, Out(s, c, wait, ii, Seek))
    {
      SuffixHead(indicator[..], s, ii);
      Consumed(indicator[..], s, final, ii, Num(0.0), Out(s, c, wait, ii + 1, Seek));
      assert indicator[..][ii := Num(0.0)] == indicator[..];
      ii := ii + 1;
    }
  }

  /** The minimum-cap stretch: up to `minCap` cells from the opening of a
      position are forced to its side, noting whether the signal changed and
      the last sign read. */
  method MinStretch(indicator: array<Val>, ghost s: seq<Val>, c: Caps, wait: bool, ghost final: seq<Val>,
                    ii0: int, ss: int, minCap: int, maxCap: int)
    returns (ii: int, daysIn: int, done: bool, prevIndSign: int)
    requires ss == 1 || ss == -1
    requires 0 <= ii0 <= |s| == indicator.Length
    requires Scanned(indicator[..], s, final, ii0, Out(s, c, wait, ii0, MinRun(ss, minCap, maxCap, 1, false, -10)))
    modifies indicator
    ensures ii0 <= ii <= |s|
    ensures Scanned(indicator[..], s, final, ii, Out(s, c, wait, ii, MinRun(ss, minCap, maxCap, daysIn, done, prevIndSign)))
    ensures ii == indicator.Length || daysIn > minCap
    ensures ii == ii0 ==> daysIn == 1 && !done
  {
    ii, daysIn, done, prevIndSign := ii0, 1, false, -10;
    var n := indicator.Length;
    while ii < n && daysIn <= minCap
      invariant ii0 <= ii <= n
      invariant daysIn - 1 == ii - ii0 && (ii == ii0 ==> !done)
      invariant Scanned(indicator[..], s, final, ii, Out(s, c, wait, ii, MinRun(ss, minCap, maxCap, daysIn, done, prevIndSign)))
      decreases n - ii
    {
      var indSign := SignOf(indicator[ii]);
      SuffixHead(indicator[..], s, ii);
      ghost var w := if indSign != ss then Num(ss as real) else indicator[ii];
      Consumed(indicator[..], s, final, ii, w, Out(s, c, wait, ii + 1, MinRun(ss, minCap, maxCap, daysIn + 1, done || indSign != ss, indSign)));
      if !done && indSign != ss {
        done := true;
      }
      prevIndSign := indSign;
      if indSign != ss {
        indicator[ii] := Num(ss as real);
      } else {
        assert indicator[..][ii := w] == indicator[..];
      }
      daysIn := daysIn + 1;
      ii := ii + 1;
    }
  }

  /** Waiting for a new signal: the cells carrying the changed signal are
      flattened. */
  method WaitStretch(indicator: array<Val>, ghost s: seq<Val>, c: Caps, wait: bool, ghost final: seq<Val>,
                     ii0: int, prevIndSign: int)
    returns (ii: int)
    requires 0 <= ii0 <= |s| == indicator.Length
    requires Scanned(indicator[..], s, final, ii0, Out(s, c, wait, ii0, Wait(prevIndSign)))
    modifies indicator
    ensures ii0 <= ii <= |s|
    ensures Scanned(indicator[..], s, final, ii, Out(s, c, wait, ii, Seek))
  {
    ii := ii0;
    var n := indicator.Length;
    while ii < n && SignOf(indicator[ii]) == prevIndSign
      invariant ii0 <= ii <= n
      invariant Scanned(indicator[..], s, final, ii, Out(s, c, wait, ii, Wait(prevIndSign)))
      decreases n - ii
    {
      SuffixHead(indicator[..], s, ii);
      Consumed(indicator[..], s, final, ii, Num(0.0), Out(s, c, wait, ii + 1, Wait(prevIndSign)));
      indicator[ii] := Num(0.0);
      ii := ii + 1;
    }
    if ii < n {
      SuffixHead(indicator[..], s, ii);
    }
  }

  /** The maximum-cap stretch: the rest of the position, flattened from
      cell `maxCap + 1` of it on when that cap is on. */
  method MaxStretch(indicator: array<Val>, ghost s: seq<Val>, c: Caps, wait: bool, ghost final: seq<Val>,
                    ii0: int, ss: int, maxCap: int, daysIn0: int)
    returns (ii: int)
    requires 0 <= ii0 <= |s| == indicator.Length
    requires Scanned(indicator[..], s, final, ii0, Out(s, c, wait, ii0, MaxRun(ss, maxCap, daysIn0)))
    modifies indicator
    ensures ii0 <= ii <= |s|
    ensures Scanned(indicator[..], s, final, ii, Out(s, c, wait, ii, Seek))
    ensures ii0 < |s| && SignOf(s[ii0]) == ss ==> ii0 < ii
  {
    ii := ii0;
    var daysIn := daysIn0;
    var n := indicator.Length;
    while ii < n && SignOf(indicator[ii]) == ss
      invariant ii0 <= ii <= n
      invariant Scanned(indicator[..], s, final, ii, Out(s, c, wait, ii, MaxRun(ss, maxCap, daysIn)))
      decreases n - ii
    {
      SuffixHead(indicator[..], s, ii);
      ghost var w := if maxCap > -1 && daysIn > maxCap then Num(0.0) else indicator[ii];
      Consumed(indicator[..], s, final, ii, w, Out(s, c, wait, ii + 1, MaxRun(ss, maxCap, daysIn + 1)));
      if maxCap > -1 && daysIn > maxCap {
        indicator[ii] := Num(0.0);
      } else {
        assert indicator[..][ii := w] == indicator[..];
      }
      daysIn := daysIn + 1;
      ii := ii + 1;
    }
    if ii < n {
      SuffixHead(indicator[..], s, ii);
    }
  }

  /** A position whose side has both caps off is passed over. */
  method HoldStretch(indicator: array<Val>, ghost s: seq<Val>, c: Caps, wait: bool, ghost final: seq<Val>,
                     ii0: int, ss: int)
    returns (ii: int)
    requires 0 <= ii0 <= |s| == indicator.Length
    requires Scanned(indicator[..], s, final, ii0, Out(s, c, wait, ii0, Hold(ss)))
    modifies indicator
    ensures ii0 <= ii <= |s|
    ensures Scanned(indicator[..], s, final, ii, Out(s, c, wait, ii, Seek))
    ensures ii0 < |s| && SignOf(s[ii0]) == ss ==> ii0 < ii
  {
    ii := ii0;
    var n := indicator.Length;
    while ii < n && SignOf(indicator[ii]) == ss
      invariant ii0 <= ii <= n
      invariant Scanned(indicator[..], s, final, ii, Out(s, c, wait, ii, Hold(ss)))
      decreases n - ii
    {
      SuffixHead(indicator[..], s, ii);
      Consumed(indicator[..], s, final, ii, indicator[ii], Out(s, c, wait, ii + 1, Hold(ss)));
      assert indicator[..][ii := indicator[ii]] == indicator[..];
      ii := ii + 1;
    }
    if ii < n {
      SuffixHead(indicator[..], s, ii);
    }
  }
}

module CapDurationFacts {
  import opened Common
  import opened CapDuration

  /** Cell `k` of `r`, which stands for the cells from `ii` on, is the
      input cell, flat, or one of the two sides. */
  ghost predicate FromInput(s: seq<Val>, ii: int, r: seq<Val>)
  {
    forall k :: 0 <= k < |r| && 0 <= ii + k < |s| ==>
      r[k] == s[ii + k] || r[k] == Num(0.0) || r[k] == Num(1.0) || r[k] == Num(-1.0)
  }

  lemma FromInputCons(s: seq<Val>, ii: int, w: Val, t: seq<Val>)
    requires 0 <= ii < |s| && FromInput(s, ii + 1, t)
    requires w == s[ii] || w == Num(0.0) || w == Num(1.0) || w == Num(-1.0)
    ensures FromInput(s, ii, [w] + t)
  {
    forall k | 0 <= k < |[w] + t| && 0 <= ii + k < |s|
      ensures ([w] + t)[k] == s[ii + k] || ([w] + t)[k] == Num(0.0) || ([w] + t)[k] == Num(1.0) || ([w] + t)[k] == Num(-1.0)
    {
      if k > 0 {
        assert ([w] + t)[k] == t[k - 1] && ii + 1 + (k - 1) == ii + k;
      }
    }
  }

  /** Every cell the scan writes is the input cell, flat, or one of the two
      sides: a cap never invents a size. */
  lemma {:induction false} OutCells(s: seq<Val>, c: Caps, wait: bool, ii: int, ph: Phase)
    requires 0 <= ii <= |s|
    requires ph.MinRun? ==> ph.ss == 1 || ph.ss == -1
    ensures FromInput(s, ii, Out(s, c, wait, ii, ph))
    decreases |s| - ii, if ii < |s| then Rank(ph, s[ii]) else 0
  {
    if ii < |s| {
      var x := s[ii];
      match ph
      case Seek =>
        var ss := SignOf(x);
        if x == Num(0.0) || (ss != 1 && ss != -1) {
          OutCells(s, c, wait, ii + 1, Seek);
          FromInputCons(s, ii, x, Out(s, c, wait, ii + 1, Seek));
        } else if MinCap(c, ss) != -1 || MaxCap(c, ss) != -1 {
          OutCells(s, c, wait, ii, MinRun(ss, MinCap(c, ss), MaxCap(c, ss), 1, false, -10));
        } else {
          OutCells(s, c, wait, ii, Hold(ss));
        }
      case MinRun(ss, minCap, maxCap, daysIn, done, prev) =>
        if daysIn <= minCap {
          var indSign := SignOf(x);
          var next := MinRun(ss, minCap, maxCap, daysIn + 1, done || indSign != ss, indSign);
          OutCells(s, c, wait, ii + 1, next);
          FromInputCons(s, ii, if indSign != ss then Num(ss as real) else x, Out(s, c, wait, ii + 1, next));
        } else if done && wait {
          OutCells(s, c, wait, ii, Wait(prev));
        } else {
          OutCells(s, c, wait, ii, MaxRun(ss, maxCap, daysIn));
        }
      case Wait(prev) =>
        if SignOf(x) == prev {
          OutCells(s, c, wait, ii + 1, Wait(prev));
          FromInputCons(s, ii, Num(0.0), Out(s, c, wait, ii + 1, Wait(prev)));
        } else {
          OutCells(s, c, wait, ii, Seek);
        }
      case MaxRun(ss, maxCap, daysIn) =>
        if SignOf(x) == ss {
          OutCells(s, c, wait, ii + 1, MaxRun(ss, maxCap, daysIn + 1));
          FromInputCons(s, ii, if maxCap > -1 && daysIn > maxCap then Num(0.0) else x,
                        Out(s, c, wait, ii + 1, MaxRun(ss, maxCap, daysIn + 1)));
        } else {
          OutCells(s, c, wait, ii, Seek);
        }
      case Hold(ss) =>
        if SignOf(x) == ss {
          OutCells(s, c, wait, ii + 1, Hold(ss));
          FromInputCons(s, ii, x, Out(s, c, wait, ii + 1, Hold(ss)));
        } else {
          OutCells(s, c, wait, ii, Seek);
        }
    }
  }

  /** Cell `k` of `r`, which stands for the cells from `ii` on, was
      rewritten to something other than a flat 0. */
  ghost predicate Rewritten(s: seq<Val>, ii: int, r: seq<Val>, k: int)
  {
    0 <= k < |r| && 0 <= ii + k < |s| && r[k] != s[ii + k] && r[k] != Num(0.0)
  }

  /** The sign of the cell before cell `k` of `r`; `before` for the first. */
  ghost function SideBefore(r: seq<Val>, k: int, before: int): int
  {
    if 0 < k <= |r| then SignOf(r[k - 1]) else before
  }

  /** In `r` a cell rewritten to a side takes the side of the cell before it. */
  ghost predicate SideWrites(s: seq<Val>, ii: int, r: seq<Val>, before: int)
  {
    forall k {:trigger Rewritten(s, ii, r, k)} :: Rewritten(s, ii, r, k) ==> SignOf(r[k]) == SideBefore(r, k, before)
  }

  lemma SideWritesCons(s: seq<Val>, ii: int, w: Val, t: seq<Val>, before: int)
    requires 0 <= ii < |s| && SideWrites(s, ii + 1, t, SignOf(w))
    requires w != s[ii] && w != Num(0.0) ==> SignOf(w) == before
    ensures SideWrites(s, ii, [w] + t, before)
  {
    var r := [w] + t;
    forall k | Rewritten(s, ii, r, k)
      ensures SignOf(r[k]) == SideBefore(r, k, before)
    {
      if k > 0 {
        assert r[k] == t[k - 1] && ii + 1 + (k - 1) == ii + k;
        assert Rewritten(s, ii + 1, t, k - 1);
        assert r[k - 1] == if k == 1 then w else t[k - 2];
      }
    }
  }

  /** What a phase needs to know about the cell before it: the minimum
      stretch opens on a cell of its own side, and after its first cell the
      cell before is on its side; the other phases write only 0 or the input. */
  ghost predicate SideReady(s: seq<Val>, ii: int, ph: Phase, before: int)
    requires 0 <= ii <= |s|
  {
    ph.MinRun? ==>
      && ph.daysIn >= 1
      && (ph.daysIn == 1 && ii < |s| ==> SignOf(s[ii]) == ph.ss)
      && (ph.daysIn != 1 ==> before == ph.ss)
  }

  /** The scan only ever writes a side to extend the side of the cell
      before: only the minimum stretch writes a side, and never on the
      position's opening cell. */
  lemma {:induction false} OutSides(s: seq<Val>, c: Caps, wait: bool, ii: int, ph: Phase, before: int)
    requires 0 <= ii <= |s|
    requires ph.MinRun? ==> ph.ss == 1 || ph.ss == -1
    requires SideReady(s, ii, ph, before)
    ensures SideWrites(s, ii, Out(s, c, wait, ii, ph), before)
    decreases |s| - ii, if ii < |s| then Rank(ph, s[ii]) else 0
  {
    if ii < |s| {
      var x := s[ii];
      match ph
      case Seek =>
        var ss := SignOf(x);
        if x == Num(0.0) || (ss != 1 && ss != -1) {
          OutSides(s, c, wait, ii + 1, Seek, SignOf(x));
          SideWritesCons(s, ii, x, Out(s, c, wait, ii + 1, Seek), before);
        } else if MinCap(c, ss) != -1 || MaxCap(c, ss) != -1 {
          OutSides(s, c, wait, ii, MinRun(ss, MinCap(c, ss), MaxCap(c, ss), 1, false, -10), before);
        } else {
          OutSides(s, c, wait, ii, Hold(ss), before);
        }
      case MinRun(ss, minCap, maxCap, daysIn, done, prev) =>
        if daysIn <= minCap {
          var indSign := SignOf(x);
          var w := if indSign != ss then Num(ss as real) else x;
          var next := MinRun(ss, minCap, maxCap, daysIn + 1, done || indSign != ss, indSign);
          assert SignOf(w) == ss;
          OutSides(s, c, wait, ii + 1, next, SignOf(w));
          SideWritesCons(s, ii, w, Out(s, c, wait, ii + 1, next), before);
        } else if done && wait {
          OutSides(s, c, wait, ii, Wait(prev), before);
        } else {
          OutSides(s, c, wait, ii, MaxRun(ss, maxCap, daysIn), before);
        }
      case Wait(prev) =>
        if SignOf(x) == prev {
          OutSides(s, c, wait, ii + 1, Wait(prev), 0);
          SideWritesCons(s, ii, Num(0.0), Out(s, c, wait, ii + 1, Wait(prev)), before);
        } else {
          OutSides(s, c, wait, ii, Seek, before);
        }
      case MaxRun(ss, maxCap, daysIn) =>
        if SignOf(x) == ss {
          var w := if maxCap > -1 && daysIn > maxCap then Num(0.0) else x;
          OutSides(s, c, wait, ii + 1, MaxRun(ss, maxCap, daysIn + 1), SignOf(w));
          SideWritesCons(s, ii, w, Out(s, c, wait, ii + 1, MaxRun(ss, maxCap, daysIn + 1)), before);
        } else {
          OutSides(s, c, wait, ii, Seek, before);
        }
      case Hold(ss) =>
        if SignOf(x) == ss {
          OutSides(s, c, wait, ii + 1, Hold(ss), SignOf(x));
          SideWritesCons(s, ii, x, Out(s, c, wait, ii + 1, Hold(ss)), before);
        } else {
          OutSides(s, c, wait, ii, Seek, before);
        }
    }
  }

  /** The indicator keeps its length and its leading NAs, is unchanged when
      every cap is negative, and holds in every cell the input, a flat 0 or
      a side. A cell is rewritten to a side only to extend the side of the
      cell before it, never on the first cell after the leading NAs. */
  lemma CappedShape(s: seq<Val>, c: Caps, wait: bool)
    ensures var r := Capped(s, c, wait);
      && |r| == |s|
      && r[..LeadingNACount(s)] == s[..LeadingNACount(s)]
      && (AllOff(c) ==> r == s)
      && (forall k :: 0 <= k < |s| ==>
           r[k] == s[k] || r[k] == Num(0.0) || r[k] == Num(1.0) || r[k] == Num(-1.0))
      && (forall k :: LeadingNACount(s) <= k < |s| && r[k] != s[k] && r[k] != Num(0.0) ==>
           k > LeadingNACount(s) && SignOf(r[k - 1]) == SignOf(r[k]))
  {
    var lead := LeadingNACount(s);
    if !AllOff(c) {
      OutCells(s, c, wait, lead, Seek);
      var r := Capped(s, c, wait);
      assert FromInput(s, lead, Out(s, c, wait, lead, Seek));
      forall k | 0 <= k < |s|
        ensures r[k] == s[k] || r[k] == Num(0.0) || r[k] == Num(1.0) || r[k] == Num(-1.0)
      {
        if k >= lead {
          assert r[k] == Out(s, c, wait, lead, Seek)[k - lead];
        }
      }
      CappedSides(s, c, wait);
    }
  }

  /** The last clause of CappedShape, when some cap is on. */
  lemma CappedSides(s: seq<Val>, c: Caps, wait: bool)
    requires !AllOff(c)
    ensures var r := Capped(s, c, wait);
      forall k :: LeadingNACount(s) <= k < |s| && r[k] != s[k] && r[k] != Num(0.0) ==>
        k > LeadingNACount(s) && SignOf(r[k - 1]) == SignOf(r[k])
  {
    var lead := LeadingNACount(s);
    var r := Capped(s, c, wait);
    var o := Out(s, c, wait, lead, Seek);
    OutSides(s, c, wait, lead, Seek, 2);
    assert r == s[..lead] + o;
    forall k | lead <= k < |s| && r[k] != s[k] && r[k] != Num(0.0)
      ensures k > lead && SignOf(r[k - 1]) == SignOf(r[k])
    {
      assert r[k] == o[k - lead] && s[lead + (k - lead)] == s[k];
      assert Rewritten(s, lead, o, k - lead);
      if k > lead {
        assert r[k - 1] == o[k - lead - 1];
      }
    }
  }

  /** Cells `0` up to `n` of `r` are all on side `ss`. */
  ghost predicate OnSide(r: seq<Val>, n: int, ss: int)
  {
    forall j :: 0 <= j < n && j < |r| ==> SignOf(r[j]) == ss
  }

  /** Inside the minimum-cap stretch, every cell up to the cap is on the
      position's side: a cell of the other side or flat is overwritten. */
  lemma {:induction false} MinRunOnSide(s: seq<Val>, c: Caps, wait: bool, ii: int,
                                        ss: int, minCap: int, maxCap: int, daysIn: int, done: bool, prev: int)
    requires 0 <= ii <= |s| && (ss == 1 || ss == -1)
    ensures OnSide(Out(s, c, wait, ii, MinRun(ss, minCap, maxCap, daysIn, done, prev)), minCap - daysIn + 1, ss)
    decreases |s| - ii
  {
    var r := Out(s, c, wait, ii, MinRun(ss, minCap, maxCap, daysIn, done, prev));
    if ii < |s| && daysIn <= minCap {
      var indSign := SignOf(s[ii]);
      var w := if indSign != ss then Num(ss as real) else s[ii];
      var t := Out(s, c, wait, ii + 1, MinRun(ss, minCap, maxCap, daysIn + 1, done || indSign != ss, indSign));
      MinRunOnSide(s, c, wait, ii + 1, ss, minCap, maxCap, daysIn + 1, done || indSign != ss, indSign);
      assert r == [w] + t;
      assert SignOf(w) == ss;
      forall j | 0 <= j < minCap - daysIn + 1 && j < |r|
        ensures SignOf(r[j]) == ss
      {
        if j > 0 {
          assert r[j] == t[j - 1];
        }
      }
    }
  }

  /** A position opened at cell `k` is held for at least its side's
      minimum cap: the scan writes the opening side into the `minCap` cells
      from `k` on (as far as the indicator goes). */
  lemma MinCapHolds(s: seq<Val>, c: Caps, wait: bool, k: int)
    requires 0 <= k < |s| && s[k].Num? && s[k] != Num(0.0)
    ensures OnSide(Out(s, c, wait, k, Seek), MinCap(c, SignOf(s[k])), SignOf(s[k]))
  {
    var ss := SignOf(s[k]);
    if MinCap(c, ss) >= 1 {
      MinRunOnSide(s, c, wait, k, ss, MinCap(c, ss), MaxCap(c, ss), 1, false, -10);
    }
  }

  /** The first cell of the run of equal signs that holds cell `k`, not
      looking before `lead`. */
  ghost function RunStart(s: seq<Val>, lead: int, k: int): (r: int)
    requires 0 <= lead <= k < |s|
    ensures lead <= r <= k
    decreases k
  {
    if k > lead && SignOf(s[k - 1]) == SignOf(s[k]) then RunStart(s, lead, k - 1) else k
  }

  /** Cell `k` under maximum caps alone: flat once the position holding it
      has lasted its side's maximum cap, the input otherwise. */
  ghost function MaxCapped(s: seq<Val>, c: Caps, lead: int, k: int): Val
    requires 0 <= lead <= k < |s|
  {
    var sg := SignOf(s[k]);
    if sg != 0 && MaxCap(c, sg) > -1 && k - RunStart(s, lead, k) >= MaxCap(c, sg) then Num(0.0) else s[k]
  }

  ghost predicate MaxCappedFrom(s: seq<Val>, c: Caps, lead: int, ii: int, r: seq<Val>)
    requires 0 <= lead <= ii
  {
    forall k :: 0 <= k < |r| && ii + k < |s| ==> r[k] == MaxCapped(s, c, lead, ii + k)
  }

  lemma MaxCappedCons(s: seq<Val>, c: Caps, lead: int, ii: int, w: Val, t: seq<Val>)
    requires 0 <= lead <= ii < |s| && MaxCappedFrom(s, c, lead, ii + 1, t) && w == MaxCapped(s, c, lead, ii)
    ensures MaxCappedFrom(s, c, lead, ii, [w] + t)
  {
    forall k | 0 <= k < |[w] + t| && ii + k < |s|
      ensures ([w] + t)[k] == MaxCapped(s, c, lead, ii + k)
    {
      if k > 0 {
        assert ([w] + t)[k] == t[k - 1] && ii + 1 + (k - 1) == ii + k;
      }
    }
  }

  /** Where the scan can be when no minimum cap is on: at the start of a
      run when seeking, or inside a run whose length so far is counted. */
  ghost predicate MaxOnlyAt(s: seq<Val>, c: Caps, lead: int, ii: int, ph: Phase)
    requires 0 <= lead <= ii <= |s|
  {
    match ph
    case Seek => ii < |s| && SignOf(s[ii]) != 0 ==> RunStart(s, lead, ii) == ii
    case MinRun(ss, minCap, maxCap, daysIn, done, _) =>
      && (ss == 1 || ss == -1) && minCap == MinCap(c, ss) && maxCap == MaxCap(c, ss)
      && daysIn == 1 && !done && ii < |s| && SignOf(s[ii]) == ss && RunStart(s, lead, ii) == ii
    case Wait(_) => false
    case MaxRun(ss, maxCap, daysIn) =>
      && (ss == 1 || ss == -1) && maxCap == MaxCap(c, ss)
      && (ii < |s| && SignOf(s[ii]) == ss ==> RunStart(s, lead, ii) == ii - daysIn + 1)
      && (ii < |s| && SignOf(s[ii]) != ss ==> ii > lead && SignOf(s[ii - 1]) == ss)
    case Hold(ss) =>
      && (ss == 1 || ss == -1) && MaxCap(c, ss) == -1
      && (ii < |s| && SignOf(s[ii]) != ss ==> ii > lead && SignOf(s[ii - 1]) == ss)
  }

  lemma {:induction false} MaxOnlyScan(s: seq<Val>, c: Caps, wait: bool, lead: int, ii: int, ph: Phase)
    requires c.shortMin <= 0 && c.longMin <= 0
    requires 0 <= lead <= ii <= |s| && MaxOnlyAt(s, c, lead, ii, ph)
    requires ph.MinRun? ==> ph.ss == 1 || ph.ss == -1
    ensures MaxCappedFrom(s, c, lead, ii, Out(s, c, wait, ii, ph))
    decreases |s| - ii, if ii < |s| then Rank(ph, s[ii]) else 0, 1
  {
    if ii < |s| {
      match ph
      case Seek =>
        MaxOnlySeek(s, c, wait, lead, ii);
      case MinRun(ss, minCap, maxCap, daysIn, done, prev) =>
        MaxOnlyScan(s, c, wait, lead, ii, MaxRun(ss, maxCap, daysIn));
      case Wait(prev) =>
      case MaxRun(ss, maxCap, daysIn) =>
        MaxOnlyMaxRun(s, c, wait, lead, ii, ss, maxCap, daysIn);
      case Hold(ss) =>
        MaxOnlyHold(s, c, wait, lead, ii, ss);
    }
  }

  /** MaxOnlyScan from a cell where the scan seeks a position. */
  lemma {:induction false} MaxOnlySeek(s: seq<Val>, c: Caps, wait: bool, lead: int, ii: int)
    requires c.shortMin <= 0 && c.longMin <= 0
    requires 0 <= lead <= ii < |s| && MaxOnlyAt(s, c, lead, ii, Seek)
    ensures MaxCappedFrom(s, c, lead, ii, Out(s, c, wait, ii, Seek))
    decreases |s| - ii, Rank(Seek, s[ii]), 0
  {
    var x := s[ii];
    var ss := SignOf(x);
    if x == Num(0.0) || (ss != 1 && ss != -1) {
      MaxOnlyScan(s, c, wait, lead, ii + 1, Seek);
      MaxCappedCons(s, c, lead, ii, x, Out(s, c, wait, ii + 1, Seek));
    } else if MinCap(c, ss) != -1 || MaxCap(c, ss) != -1 {
      MaxOnlyScan(s, c, wait, lead, ii, MinRun(ss, MinCap(c, ss), MaxCap(c, ss), 1, false, -10));
    } else {
      MaxOnlyScan(s, c, wait, lead, ii, Hold(ss));
    }
  }

  /** MaxOnlyScan from a cell inside the maximum-cap stretch. */
  lemma {:induction false} MaxOnlyMaxRun(s: seq<Val>, c: Caps, wait: bool, lead: int, ii: int,
                                         ss: int, maxCap: int, daysIn: int)
    requires c.shortMin <= 0 && c.longMin <= 0
    requires 0 <= lead <= ii < |s| && MaxOnlyAt(s, c, lead, ii, MaxRun(ss, maxCap, daysIn))
    ensures MaxCappedFrom(s, c, lead, ii, Out(s, c, wait, ii, MaxRun(ss, maxCap, daysIn)))
    decreases |s| - ii, Rank(MaxRun(ss, maxCap, daysIn), s[ii]), 0
  {
    var x := s[ii];
    if SignOf(x) == ss {
      var next := MaxRun(ss, maxCap, daysIn + 1);
      MaxOnlyScan(s, c, wait, lead, ii + 1, next);
      MaxCappedCons(s, c, lead, ii, if maxCap > -1 && daysIn > maxCap then Num(0.0) else x,
                    Out(s, c, wait, ii + 1, next));
    } else {
      MaxOnlyScan(s, c, wait, lead, ii, Seek);
    }
  }

  /** MaxOnlyScan from a cell of a position whose caps are both off. */
  lemma {:induction false} MaxOnlyHold(s: seq<Val>, c: Caps, wait: bool, lead: int, ii: int, ss: int)
    requires c.shortMin <= 0 && c.longMin <= 0
    requires 0 <= lead <= ii < |s| && MaxOnlyAt(s, c, lead, ii, Hold(ss))
    ensures MaxCappedFrom(s, c, lead, ii, Out(s, c, wait, ii, Hold(ss)))
    decreases |s| - ii, Rank(Hold(ss), s[ii]), 0
  {
    var x := s[ii];
    if SignOf(x) == ss {
      MaxOnlyScan(s, c, wait, lead, ii + 1, Hold(ss));
      MaxCappedCons(s, c, lead, ii, x, Out(s, c, wait, ii + 1, Hold(ss)));
    } else {
      MaxOnlyScan(s, c, wait, lead, ii, Seek);
    }
  }

  /** With no minimum cap on either side, the result is exactly the input
      with every position cut to its side's maximum cap: a cell is flattened
      when at least `maxCap` cells of the same sign precede it in its run,
      and kept otherwise. */
  lemma MaxCapOnly(s: seq<Val>, c: Caps, wait: bool)
    requires c.shortMin <= 0 && c.longMin <= 0
    ensures var lead := LeadingNACount(s);
      forall k :: lead <= k < |s| ==> Capped(s, c, wait)[k] == MaxCapped(s, c, lead, k)
  {
    var lead := LeadingNACount(s);
    if !AllOff(c) {
      MaxOnlyScan(s, c, wait, lead, lead, Seek);
      forall k | lead <= k < |s|
        ensures Capped(s, c, wait)[k] == MaxCapped(s, c, lead, k)
      {
        assert Capped(s, c, wait)[k] == Out(s, c, wait, lead, Seek)[k - lead];
      }
    }
  }

  /** Caps off on the short side and a long maximum of 2: the long position
      of four bars keeps its first two. */
  lemma MaxCapExample()
    ensures Capped([NA, Num(0.0), Num(1.0), Num(1.0), Num(1.0), Num(1.0), Num(0.0), Num(-1.0), Num(-1.0)],
                   Caps(-1, -1, -1, 2), false)
         == [NA, Num(0.0), Num(1.0), Num(1.0), Num(0.0), Num(0.0), Num(0.0), Num(-1.0), Num(-1.0)]
  {
    var s := [NA, Num(0.0), Num(1.0), Num(1.0), Num(1.0), Num(1.0), Num(0.0), Num(-1.0), Num(-1.0)];
    var c := Caps(-1, -1, -1, 2);
    assert LeadingNACount(s) == 1;
    assert Out(s, c, false, 7, Seek) == [Num(-1.0), Num(-1.0)];
    assert Out(s, c, false, 6, Seek) == [Num(0.0), Num(-1.0), Num(-1.0)];
    assert Out(s, c, false, 4, MaxRun(1, 2, 3)) == [Num(0.0), Num(0.0), Num(0.0), Num(-1.0), Num(-1.0)];
    assert Out(s, c, false, 2, Seek) == [Num(1.0), Num(1.0), Num(0.0), Num(0.0), Num(0.0), Num(-1.0), Num(-1.0)];
  }

  /** A long minimum cap of 2 stretches a one-bar long position over the
      first short bar; waiting for a new signal then flattens the rest of
      the short signal, while without waiting the short position follows. */
  lemma WaitExample()
    ensures Capped([Num(1.0), Num(-1.0), Num(-1.0), Num(-1.0), Num(1.0)], Caps(-1, 2, -1, -1), true)
         == [Num(1.0), Num(1.0), Num(0.0), Num(0.0), Num(1.0)]
    ensures Capped([Num(1.0), Num(-1.0), Num(-1.0), Num(-1.0), Num(1.0)], Caps(-1, 2, -1, -1), false)
         == [Num(1.0), Num(1.0), Num(-1.0), Num(-1.0), Num(1.0)]
  {
    var s := [Num(1.0), Num(-1.0), Num(-1.0), Num(-1.0), Num(1.0)];
    var c := Caps(-1, 2, -1, -1);
    assert LeadingNACount(s) == 0;
    assert Out(s, c, true, 4, Seek) == [Num(1.0)];
    assert Out(s, c, true, 2, Wait(-1)) == [Num(0.0), Num(0.0), Num(1.0)];
    assert Out(s, c, true, 0, Seek) == [Num(1.0), Num(1.0), Num(0.0), Num(0.0), Num(1.0)];
    assert Out(s, c, false, 4, Seek) == [Num(1.0)];
    assert Out(s, c, false, 2, Seek) == [Num(-1.0), Num(-1.0), Num(1.0)];
    assert Out(s, c, false, 2, MaxRun(1, -1, 3)) == [Num(-1.0), Num(-1.0), Num(1.0)];
    assert Out(s, c, false, 0, Seek) == [Num(1.0), Num(1.0), Num(-1.0), Num(-1.0), Num(1.0)];
  }

  /** A long minimum cap reaches into the short run that follows: with only
      a long minimum of 3, 1,-1,-1,-1 becomes 1,1,1,-1, so a side whose caps
      are both off is not always left unchanged. */
  lemma MinCapOverridesExample()
    ensures Capped([Num(1.0), Num(-1.0), Num(-1.0), Num(-1.0)], Caps(-1, 3, -1, -1), false)
         == [Num(1.0), Num(1.0), Num(1.0), Num(-1.0)]
  {
    var s := [Num(1.0), Num(-1.0), Num(-1.0), Num(-1.0)];
    assert LeadingNACount(s) == 0;
  }

  /** The maximum cap is applied only after the minimum stretch: with a long
      minimum of 3 and a long maximum of 1, 1,1,1,1 becomes 1,1,1,0, so cells
      older than the maximum survive. */
  lemma MinCapOutlastsMaxExample()
    ensures Capped([Num(1.0), Num(1.0), Num(1.0), Num(1.0)], Caps(-1, 3, -1, 1), false)
         == [Num(1.0), Num(1.0), Num(1.0), Num(0.0)]
  {
    var s := [Num(1.0), Num(1.0), Num(1.0), Num(1.0)];
    assert LeadingNACount(s) == 0;
  }
}
