/**
 * Forward filling and the leading-NA count of src/utils.cpp.
 */
module Utils {
  import opened Common

  /** One step of `locf`: the new value of a cell from its (already updated)
      predecessor and its own original value. */
  function FillStep(prev: Val, cur: Val, value: Val): Val
  {
    if value.Num? then
      (if prev.Num? && cur == value then prev else cur)
    else
      (if cur.NA? && prev.Num? then prev else cur)
  }

  /** What `locf(v, value)` leaves in `v`: every cell from index 1 on is
      `FillStep` of the updated cell before it and its original value. */
  function ForwardFilled(s: seq<Val>, value: Val): (r: seq<Val>)
    ensures |r| == |s|
    ensures |s| > 0 ==> r[0] == s[0]
    ensures forall i :: 1 <= i < |s| ==> r[i] == FillStep(r[i - 1], s[i], value)
    decreases |s|
  {
    if |s| <= 1 then s
    else
      var p := ForwardFilled(s[..|s| - 1], value);
      p + [FillStep(p[|p| - 1], s[|s| - 1], value)]
  }

  /** `locf`: in-place forward fill. With an NA `value` every NA that follows
      a number takes the preceding number; otherwise every cell equal to
      `value` whose updated predecessor is a number takes that number. */
  method Locf(v: array<Val>, value: Val)
    modifies v
    ensures v[..] == ForwardFilled(old(v[..]), value)
  {
    ghost var s := v[..];
    ghost var r := ForwardFilled(s, value);
    var ii := 1;
    if value.Num? {
      while ii < v.Length
        invariant 1 <= ii
        invariant forall k :: 0 <= k < ii && k < v.Length ==> v[k] == r[k]
        invariant forall k :: ii <= k < v.Length ==> v[k] == s[k]
      {
        assert r[ii] == FillStep(r[ii - 1], s[ii], value);
        if v[ii - 1].Num? && v[ii] == value {
          v[ii] := v[ii - 1];
        }
        ii := ii + 1;
      }
    } else {
      while ii < v.Length
        invariant 1 <= ii
        invariant forall k :: 0 <= k < ii && k < v.Length ==> v[k] == r[k]
        invariant forall k :: ii <= k < v.Length ==> v[k] == s[k]
      {
        assert r[ii] == FillStep(r[ii - 1], s[ii], value);
        if v[ii].NA? && v[ii - 1].Num? {
          v[ii] := v[ii - 1];
        }
        ii := ii + 1;
      }
    }
    assert v[..] == r;
  }

  /** Index of the last number strictly before `i`, if there is one. */
  function LastNumBefore(s: seq<Val>, i: nat): (j: int)
    requires i <= |s|
    ensures -1 <= j < i
    ensures j >= 0 ==> s[j].Num?
    ensures forall k :: j < k < i ==> s[k].NA?
  {
    if i == 0 then -1
    else if s[i - 1].Num? then i - 1
    else LastNumBefore(s, i - 1)
  }

  /** NA mode: a cell is NA afterwards exactly when no number precedes or is
      it; an NA that has a number before it takes the nearest such number. */
  lemma {:induction false} LocfFillsNA(s: seq<Val>, i: nat)
    requires i < |s|
    ensures var r := ForwardFilled(s, NA);
      && (r[i].NA? <==> s[i].NA? && LastNumBefore(s, i) == -1)
      && (s[i].NA? && LastNumBefore(s, i) >= 0 ==> r[i] == s[LastNumBefore(s, i)])
    decreases i
  {
    if i > 0 {
      LocfFillsNA(s, i - 1);
      var r := ForwardFilled(s, NA);
      if s[i - 1].Num? && i >= 2 {
        assert r[i - 1] == FillStep(r[i - 2], s[i - 1], NA);
      }
    }
  }

  /** NA mode: after filling, no NA follows a number. */
  lemma LocfNoNAAfterNumber(s: seq<Val>, i: nat, j: nat)
    requires i < j < |s|
    requires ForwardFilled(s, NA)[i].Num?
    ensures ForwardFilled(s, NA)[j].Num?
  {
    LocfFillsNA(s, i);
    LocfFillsNA(s, j);
    LastNumMonotone(s, i, j);
  }

  lemma {:induction false} LastNumMonotone(s: seq<Val>, i: nat, j: nat)
    requires i < j < |s|
    requires s[i].Num? || LastNumBefore(s, i) >= 0
    ensures LastNumBefore(s, j) >= 0
    decreases j - i
  {
    if j > i + 1 {
      LastNumMonotone(s, i, j - 1);
    }
  }

  /** NA mode: numbers and the leading NA run are left as they were. */
  lemma LocfPreserves(s: seq<Val>, i: nat)
    requires i < |s|
    requires s[i].Num? || i < LeadingNACount(s)
    ensures ForwardFilled(s, NA)[i] == s[i]
  {
    if i > 0 && s[i].NA? {
      LocfFillsNA(s, i);
      LeadingNAsHaveNoNumber(s, i);
    }
  }

  lemma {:induction false} LeadingNAsHaveNoNumber(s: seq<Val>, i: nat)
    requires i < LeadingNACount(s)
    ensures LastNumBefore(s, i) == -1
    decreases i
  {
    if i > 0 {
      LeadingNAsHaveNoNumber(s, i - 1);
    }
  }

  /** Value mode: cells other than `value` are kept; a cell equal to `value`
      takes its updated predecessor when that is a number. */
  lemma LocfValueMode(s: seq<Val>, value: Val, i: nat)
    requires value.Num? && 1 <= i < |s|
    ensures var r := ForwardFilled(s, value);
      && (s[i] != value ==> r[i] == s[i])
      && (s[i] == value && r[i - 1].Num? ==> r[i] == r[i - 1])
      && (s[i] == value && r[i - 1].NA? ==> r[i] == value)
  {
  }

  /** Value mode: a run of `value` that starts right after a number `x` is
      filled with `x` from left to right. */
  lemma {:induction false} LocfValueRun(s: seq<Val>, value: Val, i: nat, j: nat)
    requires value.Num? && i < j < |s|
    requires ForwardFilled(s, value)[i].Num?
    requires forall k :: i < k <= j ==> s[k] == value
    ensures ForwardFilled(s, value)[j] == ForwardFilled(s, value)[i]
    decreases j - i
  {
    if j > i + 1 {
      LocfValueRun(s, value, i, j - 1);
    }
  }

  /** `leadingNAs`: the number of NA cells before the first number. */
  method LeadingNAs(v: seq<Val>) returns (k: nat)
    ensures k <= |v|
    ensures forall i :: 0 <= i < k ==> v[i].NA?
    ensures k == |v| || v[k].Num?
    ensures k == LeadingNACount(v)
  {
    k := 0;
    while k < |v| && v[k].NA?
      invariant k <= |v|
      invariant forall i :: 0 <= i < k ==> v[i].NA?
      invariant LeadingNACount(v) == k + LeadingNACount(v[k..])
    {
      assert v[k..][1..] == v[k + 1..];
      k := k + 1;
    }
    assert k < |v| ==> v[k..][0] == v[k];
  }
}
