/** The trailing-stop recurrence of `ut_bot_alerts`: `stop[i]` is computed
    from `stop[i-1]`, the two most recent closes and the volatility loss
    `nLoss[i]`, strictly in ascending order. The stop series starts with no
    seed: position 0 is NaN and every comparison against it is false. */
module TrailingStop {
  import opened NanReal

  /** One step of the four-case update. */
  function Step(prevSrc: real, src: real, prevStop: Num, loss: Num): (r: Num)
    ensures loss.Some? ==> r.Some?
    ensures loss.None? && prevStop.None? ==> r.None?
  {
    if Gt(Some(src), prevStop) && Gt(Some(prevSrc), prevStop) then
      PyMax(prevStop, Sub(Some(src), loss))
    else if Lt(Some(src), prevStop) && Lt(Some(prevSrc), prevStop) then
      PyMin(prevStop, Add(Some(src), loss))
    else if Gt(Some(src), prevStop) then
      Sub(Some(src), loss)
    else
      Add(Some(src), loss)
  }

  /** The stop level at position i. */
  function StopAt(src: seq<real>, nLoss: seq<Num>, i: nat): (r: Num)
    requires |nLoss| == |src| && i < |src|
  {
    if i == 0 then None else Step(src[i - 1], src[i], StopAt(src, nLoss, i - 1), nLoss[i])
  }

  /** The whole stop series, aligned with the closes. */
  function Stops(src: seq<real>, nLoss: seq<Num>): (stop: seq<Num>)
    requires |nLoss| == |src|
    ensures |stop| == |src|
  {
    seq(|src|, i requires 0 <= i < |src| => StopAt(src, nLoss, i))
  }

  /** The loop of `ut_bot_alerts`: a series of NaN written in place, one
      position at a time, each from the one before it. */
  method ComputeStops(src: seq<real>, nLoss: seq<Num>) returns (stop: seq<Num>)
    requires |nLoss| == |src|
    ensures stop == Stops(src, nLoss)
  {
    ghost var spec := Stops(src, nLoss);
    var s := new Num[|src|](_ => None);
    var i := 1;
    while i < |src|
      invariant 1 <= i
      invariant i <= |src| || |src| == 0
      invariant forall j :: 0 <= j < i && j < |src| ==> s[j] == spec[j]
    {
      var next := Step(src[i - 1], src[i], s[i - 1], nLoss[i]);
      assert next == spec[i];
      s[i] := next;
      i := i + 1;
    }
    stop := s[..];
  }

  /** While the loss is still undefined, so is the stop: nothing is defined
      before position `first`, and the first defined value comes from the
      last branch, `close + nLoss`, because every comparison against the
      undefined previous stop is false. */
  lemma {:induction false} StopUndefinedUntilLoss(src: seq<real>, nLoss: seq<Num>, first: nat, i: nat)
    requires |nLoss| == |src| && i < |src|
    requires forall j :: 0 <= j < first && j < |src| ==> nLoss[j].None?
    ensures i < first ==> StopAt(src, nLoss, i).None?
    ensures i == first && i > 0 ==> StopAt(src, nLoss, i) == Add(Some(src[i]), nLoss[i])
  {
    if 0 < i <= first {
      StopUndefinedUntilLoss(src, nLoss, first, i - 1);
    }
  }

  /** Once the loss is defined from position `first` on, the stop is defined
      from there on too. */
  lemma {:induction false} StopDefinedFromLoss(src: seq<real>, nLoss: seq<Num>, first: nat, i: nat)
    requires |nLoss| == |src| && first <= i < |src| && first >= 1
    requires forall j :: first <= j < |src| ==> nLoss[j].Some?
    ensures StopAt(src, nLoss, i).Some?
  {
    if i > first {
      StopDefinedFromLoss(src, nLoss, first, i - 1);
    }
  }

  /** In an uptrend (both closes above the previous stop) the stop never
      falls; in a downtrend (both below) it never rises. */
  lemma StopTightensWithinTrend(src: seq<real>, nLoss: seq<Num>, i: nat)
    requires |nLoss| == |src| && 1 <= i < |src|
    ensures Gt(Some(src[i]), StopAt(src, nLoss, i - 1)) && Gt(Some(src[i - 1]), StopAt(src, nLoss, i - 1))
            ==> Ge(StopAt(src, nLoss, i), StopAt(src, nLoss, i - 1))
    ensures Lt(Some(src[i]), StopAt(src, nLoss, i - 1)) && Lt(Some(src[i - 1]), StopAt(src, nLoss, i - 1))
            ==> Le(StopAt(src, nLoss, i), StopAt(src, nLoss, i - 1))
  {
  }

  /** With a defined, non-negative loss the new stop lies below the close
      when the close is above the previous stop, and at or above the close
      otherwise. */
  lemma StopOnSideOfPrice(src: seq<real>, nLoss: seq<Num>, i: nat)
    requires |nLoss| == |src| && 1 <= i < |src|
    requires nLoss[i].Some? && nLoss[i].value >= 0.0
    ensures StopAt(src, nLoss, i).Some?
    ensures Gt(Some(src[i]), StopAt(src, nLoss, i - 1)) ==> StopAt(src, nLoss, i).value <= src[i]
    ensures !Gt(Some(src[i]), StopAt(src, nLoss, i - 1)) ==> StopAt(src, nLoss, i).value >= src[i]
  {
  }

  /** A close that rises past a previous close at or above the previous stop
      cannot end up below the new stop, when the loss is undefined or
      non-negative. */
  lemma RisingCloseNotBelowStop(src: seq<real>, nLoss: seq<Num>, i: nat)
    requires |nLoss| == |src| && 1 <= i < |src|
    requires src[i - 1] < src[i]
    requires Ge(Some(src[i - 1]), StopAt(src, nLoss, i - 1))
    requires nLoss[i].None? || nLoss[i].value >= 0.0
    ensures !Lt(Some(src[i]), StopAt(src, nLoss, i))
  {
  }

  /** A constant close with a loss that is undefined before `first` and zero
      from there on keeps the stop at that close from `first` on. */
  lemma {:induction false} FlatStop(src: seq<real>, nLoss: seq<Num>, p: real, first: nat, i: nat)
    requires |nLoss| == |src| && 1 <= first <= i < |src|
    requires forall j :: 0 <= j < |src| ==> src[j] == p
    requires forall j :: 0 <= j < first ==> nLoss[j].None?
    requires forall j :: first <= j < |src| ==> nLoss[j].Some? && nLoss[j].value == 0.0
    ensures StopAt(src, nLoss, i) == Some(p)
  {
    if i == first {
      StopUndefinedUntilLoss(src, nLoss, first, i);
    } else {
      FlatStop(src, nLoss, p, first, i - 1);
    }
  }
}
