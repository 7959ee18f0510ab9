/**
 * Min-max normalisation of a whole column onto the unit interval, and its
 * inverted variant for metrics where a high raw value means poor health.
 * The scale comes from the column's global minimum and maximum, so one
 * value's image depends on every other value in the table.
 */
module Normalize {
  import PyNum

  /** The smallest value of a non-empty column. */
  function MinOf(s: seq<real>): (m: real)
    requires |s| > 0
    ensures m in s
    ensures forall i :: 0 <= i < |s| ==> m <= s[i]
  {
    if |s| == 1 then s[0]
    else
      var m := MinOf(s[1..]);
      assert forall i :: 1 <= i < |s| ==> s[i] == s[1..][i - 1];
      if s[0] <= m then s[0] else m
  }

  /** The largest value of a non-empty column. */
  function MaxOf(s: seq<real>): (m: real)
    requires |s| > 0
    ensures m in s
    ensures forall i :: 0 <= i < |s| ==> s[i] <= m
  {
    if |s| == 1 then s[0]
    else
      var m := MaxOf(s[1..]);
      assert forall i :: 1 <= i < |s| ==> s[i] == s[1..][i - 1];
      if s[0] >= m then s[0] else m
  }

  /** Every value of the column is the same (zero variance). */
  predicate Constant(s: seq<real>)
  {
    forall i :: 0 <= i < |s| ==> s[i] == s[0]
  }

  /** `q` is the fraction of the way from `lo` to `hi` at which `x` lies. */
  predicate FractionOf(q: real, x: real, lo: real, hi: real)
  {
    q * (hi - lo) == x - lo
  }

  /**
   * `(x - lo) / (hi - lo)`: the position of `x` in [lo, hi] as a fraction,
   * 0 exactly at `lo` and 1 exactly at `hi`.
   */
  function Scale(x: real, lo: real, hi: real): (q: real)
    requires lo <= x <= hi && lo < hi
    ensures 0.0 <= q <= 1.0
    ensures q == 0.0 <==> x == lo
    ensures q == 1.0 <==> x == hi
    ensures FractionOf(q, x, lo, hi)
  {
    var d := hi - lo;
    var q := (x - lo) / d;
    assert q * d == x - lo;
    assert x == lo ==> q == 0.0 by {
      if x == lo {
        assert q * d == 0.0 * d;
        PyNum.CancelFactor(q, 0.0, d);
      }
    }
    assert x == hi ==> q == 1.0 by {
      if x == hi {
        assert q * d == 1.0 * d;
        PyNum.CancelFactor(q, 1.0, d);
      }
    }
    assert q <= 1.0 by {
      assert (1.0 - q) * d == hi - x;
    }
    q
  }

  /** Scaling keeps order, strictly. */
  lemma ScaleMonotone(x: real, y: real, lo: real, hi: real)
    requires lo <= x <= y <= hi && lo < hi
    ensures Scale(x, lo, hi) <= Scale(y, lo, hi)
    ensures x < y ==> Scale(x, lo, hi) < Scale(y, lo, hi)
  {
    var d := hi - lo;
    assert (y - lo) / d - (x - lo) / d == (y - x) / d;
  }

  /**
   * `(x - min) / (max - min)` for every value, or all zeros when the
   * column has zero variance.  An empty column stays empty.
   */
  function Normalize(col: seq<real>): (r: seq<real>)
    ensures |r| == |col|
    ensures forall i :: 0 <= i < |r| ==> 0.0 <= r[i] <= 1.0
    ensures Constant(col) ==> forall i :: 0 <= i < |r| ==> r[i] == 0.0
    ensures !Constant(col) ==> forall i :: 0 <= i < |r| ==>
              (col[i] == MinOf(col) <==> r[i] == 0.0) && (col[i] == MaxOf(col) <==> r[i] == 1.0)
    ensures !Constant(col) ==> forall i :: 0 <= i < |r| ==> FractionOf(r[i], col[i], MinOf(col), MaxOf(col))
  {
    if |col| == 0 then []
    else
      var lo := MinOf(col);
      var hi := MaxOf(col);
      if hi == lo then
        assert Constant(col);
        seq(|col|, i => 0.0)
      else
        assert !Constant(col) by {
          var j :| 0 <= j < |col| && col[j] == hi;
          var k :| 0 <= k < |col| && col[k] == lo;
        }
        ScaleAll(col, lo, hi)
  }

  /** Every value of a column scaled into [0, 1] by the same range [lo, hi]. */
  function ScaleAll(col: seq<real>, lo: real, hi: real): (r: seq<real>)
    requires lo < hi && forall i :: 0 <= i < |col| ==> lo <= col[i] <= hi
    ensures |r| == |col|
    ensures forall i :: 0 <= i < |r| ==>
              && 0.0 <= r[i] <= 1.0
              && (col[i] == lo <==> r[i] == 0.0) && (col[i] == hi <==> r[i] == 1.0)
              && FractionOf(r[i], col[i], lo, hi)
  {
    seq(|col|, i requires 0 <= i < |col| => Scale(col[i], lo, hi))
  }

  /** Normalisation preserves the order of the values (strictly, unless the column is constant). */
  lemma {:induction false} NormalizeMonotone(col: seq<real>, i: int, j: int)
    requires 0 <= i < |col| && 0 <= j < |col|
    requires col[i] <= col[j]
    ensures Normalize(col)[i] <= Normalize(col)[j]
    ensures !Constant(col) && col[i] < col[j] ==> Normalize(col)[i] < Normalize(col)[j]
  {
    var lo := MinOf(col);
    var hi := MaxOf(col);
    if hi != lo {
      ScaleMonotone(col[i], col[j], lo, hi);
    } else {
      assert Constant(col);
    }
  }

  /** Normalising an already-normalised column changes nothing. */
  lemma {:induction false} NormalizeIdempotent(col: seq<real>)
    ensures Normalize(Normalize(col)) == Normalize(col)
  {
    var r := Normalize(col);
    if |col| > 0 && !Constant(col) {
      var j :| 0 <= j < |col| && col[j] == MinOf(col);
      var k :| 0 <= k < |col| && col[k] == MaxOf(col);
      assert r[j] == 0.0 && r[k] == 1.0;
      var lo := MinOf(r);
      var hi := MaxOf(r);
      assert lo == 0.0 && hi == 1.0;
      assert !Constant(r) by {
        assert r[j] != r[k];
      }
      var rr := Normalize(r);
      forall i | 0 <= i < |r|
        ensures rr[i] == r[i]
      {
        assert rr[i] == Scale(r[i], lo, hi);
      }
    } else if |col| > 0 {
      assert Constant(r);
    }
  }

  /**
   * `1 - normalize(series)`, used where a high raw value means poor health:
   * a zero-variance column becomes all ones.
   */
  function Inverted(col: seq<real>): (r: seq<real>)
    ensures |r| == |col|
    ensures forall i :: 0 <= i < |r| ==> 0.0 <= r[i] <= 1.0
    ensures Constant(col) ==> forall i :: 0 <= i < |r| ==> r[i] == 1.0
    ensures forall i :: 0 <= i < |r| ==> r[i] + Normalize(col)[i] == 1.0
  {
    var n := Normalize(col);
    seq(|n|, i requires 0 <= i < |n| => 1.0 - n[i])
  }

  /** The inverted variant reverses the order of the values. */
  lemma {:induction false} InvertedAntitone(col: seq<real>, i: int, j: int)
    requires 0 <= i < |col| && 0 <= j < |col|
    requires col[i] <= col[j]
    ensures Inverted(col)[j] <= Inverted(col)[i]
    ensures !Constant(col) && col[i] < col[j] ==> Inverted(col)[j] < Inverted(col)[i]
  {
    NormalizeMonotone(col, i, j);
  }
}
