/** `minMaxNorm`: rescales a sequence linearly so that its minimum becomes
    0 and its maximum 1 (all zeros when every value is equal). Go's float64
    arithmetic is idealised as exact `real` arithmetic. */
module MinMax {

  /** The least value of a non-empty sequence, folded from the left the way
      the loop updates `minv`. */
  function SeqMin(s: seq<real>): (r: real)
    requires |s| > 0
    ensures r in s
    ensures forall i :: 0 <= i < |s| ==> r <= s[i]
  {
    if |s| == 1 then s[0]
    else
      var m := SeqMin(s[..|s| - 1]);
      assert forall i :: 0 <= i < |s| - 1 ==> s[..|s| - 1][i] == s[i];
      if s[|s| - 1] < m then s[|s| - 1] else m
  }

  /** The greatest value of a non-empty sequence, folded like `maxv`. */
  function SeqMax(s: seq<real>): (r: real)
    requires |s| > 0
    ensures r in s
    ensures forall i :: 0 <= i < |s| ==> s[i] <= r
  {
    if |s| == 1 then s[0]
    else
      var m := SeqMax(s[..|s| - 1]);
      assert forall i :: 0 <= i < |s| - 1 ==> s[..|s| - 1][i] == s[i];
      if s[|s| - 1] > m then s[|s| - 1] else m
  }

  /** One output value: `(v - lo) / (hi - lo)`, or 0 when the denominator
      is 0. */
  function Rescale(v: real, lo: real, hi: real): real
  {
    if hi - lo == 0.0 then 0.0 else (v - lo) / (hi - lo)
  }

  /** The normalised sequence. */
  function Norm(vals: seq<real>): (r: seq<real>)
    ensures |r| == |vals|
  {
    if |vals| == 0 then []
    else
      var lo, hi := SeqMin(vals), SeqMax(vals);
      seq(|vals|, i requires 0 <= i < |vals| => Rescale(vals[i], lo, hi))
  }

  /** The Go loops: find `minv`/`maxv`, then fill a fresh zeroed buffer. */
  method MinMaxNorm(vals: seq<real>) returns (out: seq<real>)
    ensures out == Norm(vals)
  {
    if |vals| == 0 {
      return vals;
    }
    var minv, maxv := Bounds(vals);
    var a := new real[|vals|](_ => 0.0);
    var den := maxv - minv;
    if den == 0.0 {
      for j := 0 to |vals|
        invariant forall k :: 0 <= k < j ==> a[k] == Rescale(vals[k], minv, maxv)
      {
        a[j] := 0.0;
      }
    } else {
      for j := 0 to |vals|
        invariant forall k :: 0 <= k < j ==> a[k] == Rescale(vals[k], minv, maxv)
      {
        a[j] := (vals[j] - minv) / den;
      }
    }
    out := a[..];
    assert forall k :: 0 <= k < |vals| ==> out[k] == Norm(vals)[k];
  }

  /** The first loop of `minMaxNorm`: the running minimum and maximum. */
  method Bounds(vals: seq<real>) returns (minv: real, maxv: real)
    requires |vals| > 0
    ensures minv == SeqMin(vals) && maxv == SeqMax(vals)
  {
    minv, maxv := vals[0], vals[0];
    var i := 0;
    while i < |vals|
      invariant 0 <= i <= |vals|
      invariant minv == SeqMin(vals[..if i == 0 then 1 else i])
      invariant maxv == SeqMax(vals[..if i == 0 then 1 else i])
    {
      var v := vals[i];
      if v < minv {
        minv := v;
      }
      if v > maxv {
        maxv := v;
      }
      assert vals[..i + 1][..i] == vals[..i];
      i := i + 1;
    }
    assert vals[..|vals|] == vals;
  }

  /** Every value equal: the denominator is zero and so is every output. */
  lemma NormConstant(vals: seq<real>)
    requires forall i :: 0 <= i < |vals| ==> vals[i] == vals[0]
    ensures forall i :: 0 <= i < |vals| ==> Norm(vals)[i] == 0.0
  {
    if |vals| > 0 {
      assert SeqMin(vals) == vals[0] == SeqMax(vals);
    }
  }

  /** Two different values: the denominator is positive. */
  lemma SpreadPositive(vals: seq<real>, i: nat, j: nat)
    requires i < |vals| && j < |vals| && vals[i] != vals[j]
    ensures SeqMax(vals) - SeqMin(vals) > 0.0
  {
  }

  /** One output inside a positive spread: in [0, 1], 0 at the bottom and
      1 at the top. */
  lemma RescaleBounds(v: real, lo: real, hi: real)
    requires lo <= v <= hi && lo < hi
    ensures 0.0 <= Rescale(v, lo, hi) <= 1.0
    ensures v == lo ==> Rescale(v, lo, hi) == 0.0
    ensures v == hi ==> Rescale(v, lo, hi) == 1.0
  {
    var d := hi - lo;
    var q := (v - lo) / d;
    assert q * d == v - lo;
    assert q <= 1.0 by {
      if q > 1.0 {
        assert q * d > 1.0 * d;
      }
    }
  }

  lemma DivStrict(x: real, y: real, d: real)
    requires d > 0.0 && x < y
    ensures x / d < y / d
  {
    assert y / d - x / d == (y - x) / d;
  }

  /** Not all values equal: every output lies in [0, 1], a least input maps
      to 0 and a greatest input maps to 1. */
  lemma NormRange(vals: seq<real>, i: nat, j: nat)
    requires i < |vals| && j < |vals| && vals[i] != vals[j]
    ensures forall k :: 0 <= k < |vals| ==> 0.0 <= Norm(vals)[k] <= 1.0
    ensures forall k :: 0 <= k < |vals| && vals[k] == SeqMin(vals) ==> Norm(vals)[k] == 0.0
    ensures forall k :: 0 <= k < |vals| && vals[k] == SeqMax(vals) ==> Norm(vals)[k] == 1.0
  {
    var lo, hi := SeqMin(vals), SeqMax(vals);
    forall k | 0 <= k < |vals|
      ensures 0.0 <= Norm(vals)[k] <= 1.0
      ensures vals[k] == lo ==> Norm(vals)[k] == 0.0
      ensures vals[k] == hi ==> Norm(vals)[k] == 1.0
    {
      RescaleBounds(vals[k], lo, hi);
    }
  }

  /** The order of the inputs is the order of the outputs: a smaller input
      gives a strictly smaller output, equal inputs give equal outputs. */
  lemma NormOrder(vals: seq<real>, i: nat, j: nat)
    requires i < |vals| && j < |vals|
    ensures vals[i] < vals[j] ==> Norm(vals)[i] < Norm(vals)[j]
    ensures vals[i] == vals[j] ==> Norm(vals)[i] == Norm(vals)[j]
    ensures vals[i] <= vals[j] ==> Norm(vals)[i] <= Norm(vals)[j]
  {
    if vals[i] < vals[j] {
      var lo, hi := SeqMin(vals), SeqMax(vals);
      DivStrict(vals[i] - lo, vals[j] - lo, hi - lo);
    }
  }
}
