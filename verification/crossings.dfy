/**
  `generate_signals`: the envelope's crossing arrows. For consecutive bars
  k (older) and k + 1 (newer), with bands taken from bar k:
  a price that was above the upper band and comes back below it is a
  bearish arrow (-1) at k + 1; a price that was below the lower band and
  comes back above it is a bullish arrow (+1) at k + 1.
 */
module Crossings {
  import opened Numeric
  import opened Bands

  const Bullish: int := 1
  const Bearish: int := -1
  const NoSignal: int := 0

  /** Bars k and k + 1 are skipped unless mid[k], mid[k + 1] and mae[k] are all defined. */
  predicate Comparable(env: Envelope, k: nat)
    requires k + 1 < |env.mid| && k < |env.mae|
  {
    env.mid[k].Some? && env.mid[k + 1].Some? && env.mae[k].Some?
  }

  predicate BearishCross(src: seq<real>, env: Envelope, k: nat)
    requires k + 1 < |src| <= |env.mid| && |src| <= |env.mae|
  {
    && Comparable(env, k)
    && src[k] > env.mid[k].value + env.mae[k].value
    && src[k + 1] < env.mid[k].value + env.mae[k].value
  }

  predicate BullishCross(src: seq<real>, env: Envelope, k: nat)
    requires k + 1 < |src| <= |env.mid| && |src| <= |env.mae|
  {
    && Comparable(env, k)
    && src[k] < env.mid[k].value - env.mae[k].value
    && src[k + 1] > env.mid[k].value - env.mae[k].value
  }

  /**
    The arrow at bar i >= 1 (the bullish test is written after the bearish
    one, so it would win if both held).
   */
  function SignalAt(src: seq<real>, env: Envelope, i: nat): (s: int)
    requires 1 <= i < |src| <= |env.mid| && |src| <= |env.mae|
    ensures s == Bullish || s == Bearish || s == NoSignal
  {
    if BullishCross(src, env, i - 1) then Bullish
    else if BearishCross(src, env, i - 1) then Bearish
    else NoSignal
  }

  method GenerateSignals(src: seq<real>, env: Envelope) returns (sig: seq<int>)
    requires |src| <= |env.mid| && |src| <= |env.mae|
    ensures |sig| == |src|
    ensures |src| > 0 ==> sig[0] == NoSignal
    ensures forall i :: 1 <= i < |src| ==> sig[i] == SignalAt(src, env, i)
  {
    var n := |src|;
    sig := seq(n, _ => NoSignal);
    var k := 0;
    while k + 1 < n
      invariant 0 <= k && (n == 0 || k < n)
      invariant |sig| == n
      invariant forall i :: 0 <= i < n && (i == 0 || k < i) ==> sig[i] == NoSignal
      invariant forall i :: 1 <= i <= k && i < n ==> sig[i] == SignalAt(src, env, i)
    {
      if Comparable(env, k) {
        var upband := env.mid[k].value + env.mae[k].value;
        var loband := env.mid[k].value - env.mae[k].value;
        if src[k] > upband && src[k + 1] < upband {
          sig := sig[k + 1 := Bearish];
        }
        if src[k] < loband && src[k + 1] > loband {
          sig := sig[k + 1 := Bullish];
        }
      }
      k := k + 1;
    }
  }

  /**
    The two crossings exclude each other: the older bar needs a negative
    mae for both, the newer bar a positive one. So the order of the two
    writes in the loop never matters.
   */
  lemma CrossesExclusive(src: seq<real>, env: Envelope, k: nat)
    requires k + 1 < |src| <= |env.mid| && |src| <= |env.mae|
    requires BullishCross(src, env, k)
    ensures !BearishCross(src, env, k)
  {
  }

  /** A crossing needs the price to move: equal consecutive prices never give an arrow. */
  lemma NoArrowWithoutMove(src: seq<real>, env: Envelope, i: nat)
    requires 1 <= i < |src| <= |env.mid| && |src| <= |env.mae|
    requires src[i - 1] == src[i]
    ensures SignalAt(src, env, i) == NoSignal
  {
  }

  /** A bearish arrow means the price fell, a bullish one that it rose. */
  lemma ArrowDirection(src: seq<real>, env: Envelope, i: nat)
    requires 1 <= i < |src| <= |env.mid| && |src| <= |env.mae|
    ensures SignalAt(src, env, i) == Bearish ==> src[i] < src[i - 1]
    ensures SignalAt(src, env, i) == Bullish ==> src[i - 1] < src[i]
  {
  }
}
