/** Sums and means of reward sequences, over exact reals. */
module Stats {

  /** The sum of a sequence, accumulated from the left as Python's `sum` does. */
  function Sum(s: seq<real>): real
  {
    if |s| == 0 then 0.0 else Sum(s[..|s| - 1]) + s[|s| - 1]
  }

  /** The arithmetic mean; the mean of no observations is 0, the value an estimate starts at. */
  function Mean(s: seq<real>): real
  {
    if |s| == 0 then 0.0 else Sum(s) / (|s| as real)
  }

  /** The sum of a sequence of counts. */
  function Total(s: seq<nat>): nat
  {
    if |s| == 0 then 0 else Total(s[..|s| - 1]) + s[|s| - 1]
  }

  /** Every observation is a 0/1 reward. */
  predicate IsBinary(s: seq<real>)
  {
    forall i :: 0 <= i < |s| ==> s[i] == 0.0 || s[i] == 1.0
  }

  lemma SumAppend(s: seq<real>, x: real)
    ensures Sum(s + [x]) == Sum(s) + x
  {
    assert (s + [x])[..|s|] == s;
  }

  /** The incremental update `est += (x - est) / n` turns the mean of `s` into the mean of `s + [x]`. */
  lemma RunningMean(s: seq<real>, x: real)
    ensures Mean(s) + (x - Mean(s)) / ((|s| + 1) as real) == Mean(s + [x])
  {
    SumAppend(s, x);
    var n := |s| as real;
    if |s| > 0 {
      var m := Sum(s) / n;
      assert m * n == Sum(s);
      assert m * (n + 1.0) == Sum(s) + m;
      calc {
        m + (x - m) / (n + 1.0);
        (m * (n + 1.0) + (x - m)) / (n + 1.0);
        (Sum(s) + x) / (n + 1.0);
      }
    }
  }

  /** A mean times the number of observations recovers the sum exactly. */
  lemma MeanTimesCount(s: seq<real>)
    ensures Mean(s) * (|s| as real) == Sum(s)
  {
  }

  lemma {:induction false} SumOfBinary(s: seq<real>)
    requires IsBinary(s)
    ensures 0.0 <= Sum(s) <= |s| as real
  {
    if |s| > 0 {
      SumOfBinary(s[..|s| - 1]);
    }
  }

  /** A mean of 0/1 rewards lies in [0, 1]. */
  lemma MeanOfBinary(s: seq<real>)
    requires IsBinary(s)
    ensures 0.0 <= Mean(s) <= 1.0
  {
    SumOfBinary(s);
  }

  lemma {:induction false} SumOfConstant(s: seq<real>, c: real)
    requires forall i :: 0 <= i < |s| ==> s[i] == c
    ensures Sum(s) == c * (|s| as real)
  {
    if |s| > 0 {
      SumOfConstant(s[..|s| - 1], c);
    }
  }

  /** Observations that all equal `c` have mean `c`. */
  lemma MeanOfConstant(s: seq<real>, c: real)
    requires |s| > 0
    requires forall i :: 0 <= i < |s| ==> s[i] == c
    ensures Mean(s) == c
  {
    SumOfConstant(s, c);
  }

  /** Raising one count by one raises the total by one. */
  lemma {:induction false} TotalIncrement(s: seq<nat>, i: nat)
    requires i < |s|
    ensures Total(s[i := s[i] + 1]) == Total(s) + 1
  {
    var t := s[i := s[i] + 1];
    assert t[..|s| - 1] == if i < |s| - 1 then s[..|s| - 1][i := s[i] + 1] else s[..|s| - 1];
    if i < |s| - 1 {
      TotalIncrement(s[..|s| - 1], i);
    }
  }
}
