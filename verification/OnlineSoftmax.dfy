/** The running statistics of one row of attention scores over column blocks, and one column of the output row. Arithmetic
    is exact and the exponential is any positive function that turns sums into products. */
module OnlineSoftmax {

  type Fun = real -> real

  ghost predicate Exponential(e: Fun) {
    && (forall x: real :: e(x) > 0.0)
    && (forall x: real, y: real :: Splits(e, x, y))
  }

  predicate Splits(e: Fun, x: real, y: real) { e(x + y) == e(x) * e(y) }

  /** Scores and values of a row, block by block; no block is empty. */
  predicate Blocks(s: seq<seq<real>>, v: seq<seq<real>>) {
    |s| == |v| > 0 && forall b :: 0 <= b < |s| ==> |s[b]| == |v[b]| > 0
  }

  // ----- what is to be computed

  function Max(x: real, y: real): real { if y > x then y else x }

  function MaxFrom(m: real, s: seq<real>): real {
    if s == [] then m else Max(MaxFrom(m, s[..|s| - 1]), s[|s| - 1])
  }

  /** The maximum of the first k blocks. */
  function Top(s: seq<seq<real>>, k: nat): real
    requires 0 < k <= |s| && |s[0]| > 0
  {
    if k == 1 then MaxFrom(s[0][0], s[0][1..]) else MaxFrom(Top(s, k - 1), s[k - 1])
  }

  function RowSum(e: Fun, s: seq<real>, m: real): real {
    if s == [] then 0.0 else RowSum(e, s[..|s| - 1], m) + e(s[|s| - 1] - m)
  }

  function Weighted(e: Fun, s: seq<real>, v: seq<real>, m: real): real
    requires |s| == |v|
  {
    if s == [] then 0.0 else Weighted(e, s[..|s| - 1], v[..|s| - 1], m) + e(s[|s| - 1] - m) * v[|s| - 1]
  }

  /** The sum of exp(score - m) over the first k blocks. */
  function Norm(e: Fun, s: seq<seq<real>>, m: real, k: nat): real
    requires k <= |s|
  {
    if k == 0 then 0.0 else Norm(e, s, m, k - 1) + RowSum(e, s[k - 1], m)
  }

  /** The sum of exp(score - m) * value over the first k blocks. */
  function Numerator(e: Fun, s: seq<seq<real>>, v: seq<seq<real>>, m: real, k: nat): real
    requires Blocks(s, v) && k <= |s|
  {
    if k == 0 then 0.0 else Numerator(e, s, v, m, k - 1) + Weighted(e, s[k - 1], v[k - 1], m)
  }

  // ----- what is computed

  /** The output accumulator after k blocks: it is divided by the factor that the row sum is multiplied by. */
  function Got(e: Fun, s: seq<seq<real>>, v: seq<seq<real>>, k: nat): real
    requires Blocks(s, v) && 0 < k <= |s| && Exponential(e)
  {
    if k == 1 then Weighted(e, s[0], v[0], Top(s, 1))
    else Got(e, s, v, k - 1) / e(Top(s, k - 1) - Top(s, k)) + Weighted(e, s[k - 1], v[k - 1], Top(s, k))
  }

  /** The maximum of a block, starting from minus infinity (None) or the previous maximum (lines 194 to 199). */
  datatype Ext = NegInfinity | Finite(x: real)

  method Maximum(m: Ext, s: seq<real>) returns (r: Ext)
    requires |s| > 0
    ensures r == Finite(if m.NegInfinity? then MaxFrom(s[0], s[1..]) else MaxFrom(m.x, s))
  {
    r := m;
    for i := 0 to |s|
      invariant i == 0 ==> r == m
      invariant i > 0 ==> r == Finite(if m.NegInfinity? then MaxFrom(s[0], s[1..i]) else MaxFrom(m.x, s[..i]))
      invariant m.Finite? ==> r == Finite(MaxFrom(m.x, s[..i]))
    {
      var val := s[i];
      if r.NegInfinity? || val > r.x {
        r := Finite(val);
      }
      assert s[..i + 1][..i] == s[..i];
      if i > 0 { assert s[1..i + 1][..i - 1] == s[1..i]; }
    }
    assert s[..|s|] == s && s[1..|s|] == s[1..];
  }

  /** The P tile's row and its sum (lines 202 to 206). */
  method Exponentials(e: Fun, s: seq<real>, m: real) returns (p: seq<real>, sum: real)
    ensures |p| == |s| && (forall i :: 0 <= i < |s| ==> p[i] == e(s[i] - m)) && sum == RowSum(e, s, m)
  {
    p, sum := [], 0.0;
    for i := 0 to |s|
      invariant |p| == i && (forall k :: 0 <= k < i ==> p[k] == e(s[k] - m)) && sum == RowSum(e, s[..i], m)
    {
      p := p + [e(s[i] - m)];
      sum := sum + p[i];
      assert s[..i + 1][..i] == s[..i];
    }
    assert s[..|s|] == s;
  }

  /** The row of P times the column of V, onto o (lines 231 to 238). */
  method Accumulate(e: Fun, p: seq<real>, s: seq<real>, v: seq<real>, ghost m: real, o: real) returns (r: real)
    requires |p| == |s| == |v| && forall i :: 0 <= i < |s| ==> p[i] == e(s[i] - m)
    ensures r == o + Weighted(e, s, v, m)
  {
    r := o;
    for i := 0 to |s|
      invariant r == o + Weighted(e, s[..i], v[..i], m)
    {
      r := r + p[i] * v[i];
      assert s[..i + 1][..i] == s[..i] && v[..i + 1][..i] == v[..i];
    }
    assert s[..|s|] == s && v[..|s|] == v;
  }

  /** One block after the first: the new maximum, the rescaled sum, and the accumulator. */
  method Block(e: Fun, s: seq<seq<real>>, v: seq<seq<real>>, k: nat, m: real, l: real, o: real) returns (m': real, l': real, o': real)
    requires Exponential(e) && Blocks(s, v) && 0 < k < |s| && m == Top(s, k) && l == Norm(e, s, m, k) && o == Got(e, s, v, k)
    ensures m' == Top(s, k + 1) && l' == Norm(e, s, m', k + 1) && o' == Got(e, s, v, k + 1)
  {
    var top := Maximum(Finite(m), s[k]);
    m' := top.x;
    var p, sum := Exponentials(e, s[k], m');
    var shifted := e(m - m');
    l' := Rescale(e, s, k, m, m', l, shifted, sum);
    GotNext(e, s, v, k, m, m');
    o' := Accumulate(e, p, s[k], v[k], m', o / shifted);
  }

  lemma {:induction false} GotNext(e: Fun, s: seq<seq<real>>, v: seq<seq<real>>, k: nat, m: real, m': real)
    requires Exponential(e) && Blocks(s, v) && 0 < k < |s| && m == Top(s, k) && m' == Top(s, k + 1)
    ensures e(m - m') > 0.0 && Got(e, s, v, k + 1) == Got(e, s, v, k) / e(m - m') + Weighted(e, s[k], v[k], m')
  {}

  method Rescale(ghost e: Fun, ghost s: seq<seq<real>>, ghost k: nat, ghost m: real, ghost m': real, l: real, shifted: real, sum: real) returns (l': real)
    requires Exponential(e) && k < |s| && l == Norm(e, s, m, k) && shifted == e(m - m') && sum == RowSum(e, s[k], m')
    ensures l' == Norm(e, s, m', k + 1)
  {
    NormRescaled(e, s, m, m', k);
    l' := l * shifted + sum;
  }

  /** The row over all blocks, and its final rescaling (lines 123 to 262). */
  method Row(e: Fun, s: seq<seq<real>>, v: seq<seq<real>>) returns (m: real, l: real, o: real)
    requires Exponential(e) && Blocks(s, v)
    ensures m == Top(s, |s|) && l == Norm(e, s, m, |s|) && l > 0.0
    ensures o == Got(e, s, v, |s|) / l
  {
    var top := Maximum(NegInfinity, s[0]);
    m := top.x;
    var p;
    p, l := Exponentials(e, s[0], m);
    o := Accumulate(e, p, s[0], v[0], m, 0.0);
    assert Norm(e, s, m, 0) == 0.0;
    for k := 1 to |s|
      invariant m == Top(s, k) && l == Norm(e, s, m, k) && o == Got(e, s, v, k)
    {
      m, l, o := Block(e, s, v, k, m, l, o);
    }
    NormPositive(e, s, m, |s|);
    o := o / l;
  }

  // ----- exponentials

  lemma Shifted(e: Fun, x: real, m: real, m': real)
    requires Exponential(e)
    ensures e(x - m') == e(x - m) * e(m - m')
  {
    assert Splits(e, x - m, m - m');
    assert (x - m) + (m - m') == x - m';
  }

  predicate Times(x: real, a: real, c: real) { x == a * c }

  lemma {:induction false} RowSumTimes(e: Fun, s: seq<real>, m: real, m': real)
    requires Exponential(e)
    ensures Times(RowSum(e, s, m'), RowSum(e, s, m), e(m - m'))
    decreases |s|
  {
    if s == [] {
    } else {
      RowSumTimes(e, s[..|s| - 1], m, m');
      Shifted(e, s[|s| - 1], m, m');
      TimesSum(RowSum(e, s[..|s| - 1], m'), e(s[|s| - 1] - m'), RowSum(e, s[..|s| - 1], m), e(s[|s| - 1] - m), e(m - m'));
    }
  }

  lemma Distribute(a: real, b: real, c: real)
    ensures (a + b) * c == a * c + b * c
  {}

  lemma TimesSum(x: real, y: real, a: real, b: real, c: real)
    requires Times(x, a, c) && Times(y, b, c)
    ensures Times(x + y, a + b, c)
  {
    Distribute(a, b, c);
  }

  lemma {:induction false} NormTimes(e: Fun, s: seq<seq<real>>, m: real, m': real, k: nat)
    requires Exponential(e) && k <= |s|
    ensures Times(Norm(e, s, m', k), Norm(e, s, m, k), e(m - m'))
  {
    if k == 0 {
    } else {
      NormTimes(e, s, m, m', k - 1);
      RowSumTimes(e, s[k - 1], m, m');
      TimesSum(Norm(e, s, m', k - 1), RowSum(e, s[k - 1], m'), Norm(e, s, m, k - 1), RowSum(e, s[k - 1], m), e(m - m'));
    }
  }

  /** The row sum moves to the new maximum by one multiplication. */
  lemma NormRescaled(e: Fun, s: seq<seq<real>>, m: real, m': real, k: nat)
    requires Exponential(e) && k <= |s|
    ensures Norm(e, s, m', k) == Norm(e, s, m, k) * e(m - m')
  {
    NormTimes(e, s, m, m', k);
  }

  lemma {:induction false} RowSumPositive(e: Fun, s: seq<real>, m: real)
    requires Exponential(e)
    ensures RowSum(e, s, m) >= 0.0 && (s != [] ==> RowSum(e, s, m) > 0.0)
    decreases |s|
  {
    if s == [] {
    } else {
      RowSumPositive(e, s[..|s| - 1], m);
    }
  }

  lemma {:induction false} NormPositive(e: Fun, s: seq<seq<real>>, m: real, k: nat)
    requires Exponential(e) && k <= |s| && forall b :: 0 <= b < |s| ==> |s[b]| > 0
    ensures Norm(e, s, m, k) >= 0.0 && (k > 0 ==> Norm(e, s, m, k) > 0.0)
  {
    if k == 0 {
    } else {
      NormPositive(e, s, m, k - 1);
      RowSumPositive(e, s[k - 1], m);
    }
  }

  // ----- the maximum

  lemma {:induction false} MaxFromIs(m: real, s: seq<real>)
    ensures MaxFrom(m, s) >= m && (forall i :: 0 <= i < |s| ==> s[i] <= MaxFrom(m, s))
    ensures MaxFrom(m, s) == m || MaxFrom(m, s) in s
    decreases |s|
  {
    if s == [] {
    } else {
      var front := s[..|s| - 1];
      MaxFromIs(m, front);
      forall i | 0 <= i < |s| ensures s[i] <= MaxFrom(m, s) {
        if i < |front| { assert s[i] == front[i]; }
      }
    }
  }

  /** m_i is the largest score so far, and one of the scores. */
  lemma {:induction false} TopIsMaximum(s: seq<seq<real>>, k: nat)
    requires 0 < k <= |s| && |s[0]| > 0
    ensures forall b, i :: 0 <= b < k && 0 <= i < |s[b]| ==> s[b][i] <= Top(s, k)
    ensures exists b :: 0 <= b < k && Top(s, k) in s[b]
  {
    if k == 1 {
      MaxFromIs(s[0][0], s[0][1..]);
      forall i | 0 <= i < |s[0]| ensures s[0][i] <= Top(s, 1) {
        if i > 0 { assert s[0][i] == s[0][1..][i - 1]; }
      }
      assert Top(s, 1) in s[0] by { assert s[0] == [s[0][0]] + s[0][1..]; }
    } else {
      TopIsMaximum(s, k - 1);
      MaxFromIs(Top(s, k - 1), s[k - 1]);
      forall b, i | 0 <= b < k && 0 <= i < |s[b]| ensures s[b][i] <= Top(s, k) {}
      if Top(s, k) == Top(s, k - 1) {
        var b :| 0 <= b < k - 1 && Top(s, k - 1) in s[b];
        assert Top(s, k) in s[b];
      } else {
        assert Top(s, k) in s[k - 1];
      }
    }
  }

  // ----- the output

  lemma {:induction false} WeightedRescaled(e: Fun, s: seq<real>, v: seq<real>, m: real, m': real)
    requires Exponential(e) && |s| == |v|
    ensures Weighted(e, s, v, m') == Weighted(e, s, v, m) * e(m - m')
    decreases |s|
  {
    if s == [] {
    } else {
      var n := |s| - 1;
      WeightedRescaled(e, s[..n], v[..n], m, m');
      Shifted(e, s[n], m, m');
      Swap(e(s[n] - m), e(m - m'), v[n]);
      Distribute(Weighted(e, s[..n], v[..n], m), e(s[n] - m) * v[n], e(m - m'));
    }
  }

  lemma Swap(a: real, b: real, c: real)
    ensures (a * b) * c == (a * c) * b
  {}

  lemma {:induction false} NumeratorRescaled(e: Fun, s: seq<seq<real>>, v: seq<seq<real>>, m: real, m': real, k: nat)
    requires Exponential(e) && Blocks(s, v) && k <= |s|
    ensures Numerator(e, s, v, m', k) == Numerator(e, s, v, m, k) * e(m - m')
  {
    if k == 0 {
    } else {
      NumeratorRescaled(e, s, v, m, m', k - 1);
      WeightedRescaled(e, s[k - 1], v[k - 1], m, m');
      Distribute(Numerator(e, s, v, m, k - 1), Weighted(e, s[k - 1], v[k - 1], m), e(m - m'));
    }
  }

  /** The softmax-weighted sum of the values. */
  function Softmax(e: Fun, s: seq<seq<real>>, v: seq<seq<real>>): real
    requires Exponential(e) && Blocks(s, v)
  {
    NormPositive(e, s, 0.0, |s|);
    Numerator(e, s, v, 0.0, |s|) / Norm(e, s, 0.0, |s|)
  }

  /** It does not depend on what is subtracted from the scores. */
  lemma SoftmaxShifted(e: Fun, s: seq<seq<real>>, v: seq<seq<real>>, m: real)
    requires Exponential(e) && Blocks(s, v)
    ensures Norm(e, s, m, |s|) > 0.0 && Softmax(e, s, v) == Numerator(e, s, v, m, |s|) / Norm(e, s, m, |s|)
  {
    NormPositive(e, s, 0.0, |s|);
    NormPositive(e, s, m, |s|);
    NumeratorRescaled(e, s, v, 0.0, m, |s|);
    NormRescaled(e, s, 0.0, m, |s|);
    Cancel(Numerator(e, s, v, 0.0, |s|), Norm(e, s, 0.0, |s|), e(0.0 - m), Numerator(e, s, v, m, |s|), Norm(e, s, m, |s|));
  }

  lemma Cancel(a: real, b: real, c: real, x: real, y: real)
    requires b != 0.0 && x == a * c && y == b * c && y != 0.0
    ensures x / y == a / b
  {
    var q := a / b;
    assert a == q * b;
    assert x == q * y;
    Divide(q, y);
  }

  lemma Divide(q: real, d: real)
    requires d != 0.0
    ensures (q * d) / d == q
  {}

  // ----- the sums, score by score

  /** All blocks behind one another. */
  function Flat(s: seq<seq<real>>): seq<real> {
    if s == [] then [] else Flat(s[..|s| - 1]) + s[|s| - 1]
  }

  /** The softmax-weighted sum: the sum of exp(score) * value over the sum of exp(score), both taken score by score. */
  lemma SoftmaxSteps(e: Fun, s: seq<seq<real>>, v: seq<seq<real>>, f: seq<real>, w: seq<real>) returns (num: seq<real>, den: seq<real>)
    requires Exponential(e) && Blocks(s, v) && f == Flat(s) && w == Flat(v)
    ensures |f| == |w| == |num| - 1 == |den| - 1 && num[0] == den[0] == 0.0 && den[|f|] > 0.0
    ensures forall i :: 0 <= i < |f| ==> den[i + 1] == den[i] + e(f[i])
    ensures forall i :: 0 <= i < |f| ==> num[i + 1] == num[i] + e(f[i]) * w[i]
    ensures Softmax(e, s, v) == num[|f|] / den[|f|]
  {
    SoftmaxFlat(e, s, v, f, w);
    den := RowSumSteps(e, f);
    num := WeightedSteps(e, f, w);
  }

  lemma SoftmaxFlat(e: Fun, s: seq<seq<real>>, v: seq<seq<real>>, f: seq<real>, w: seq<real>)
    requires Exponential(e) && Blocks(s, v) && f == Flat(s) && w == Flat(v)
    ensures |f| == |w| && RowSum(e, f, 0.0) > 0.0 && Softmax(e, s, v) == Weighted(e, f, w, 0.0) / RowSum(e, f, 0.0)
  {
    FlatSame(s, v);
    NormFlat(e, s, 0.0, |s|);
    NumeratorFlat(e, s, v, 0.0, |s|);
    NormPositive(e, s, 0.0, |s|);
    assert s[..|s|] == s && v[..|s|] == v;
  }

  lemma RowSumSteps(e: Fun, f: seq<real>) returns (den: seq<real>)
    ensures |den| == |f| + 1 && den[0] == 0.0 && den[|f|] == RowSum(e, f, 0.0)
    ensures forall i :: 0 <= i < |f| ==> den[i + 1] == den[i] + e(f[i])
  {
    den := seq(|f| + 1, i requires 0 <= i <= |f| => RowSum(e, f[..i], 0.0));
    assert f[..|f|] == f;
    forall i | 0 <= i < |f| ensures den[i + 1] == den[i] + e(f[i]) {
      assert f[..i + 1][..i] == f[..i] && f[i] - 0.0 == f[i];
    }
  }

  lemma WeightedSteps(e: Fun, f: seq<real>, w: seq<real>) returns (num: seq<real>)
    requires |f| == |w|
    ensures |num| == |f| + 1 && num[0] == 0.0 && num[|f|] == Weighted(e, f, w, 0.0)
    ensures forall i :: 0 <= i < |f| ==> num[i + 1] == num[i] + e(f[i]) * w[i]
  {
    num := seq(|f| + 1, i requires 0 <= i <= |f| => Weighted(e, f[..i], w[..i], 0.0));
    assert f[..|f|] == f && w[..|f|] == w;
    forall i | 0 <= i < |f| ensures num[i + 1] == num[i] + e(f[i]) * w[i] {
      assert f[..i + 1][..i] == f[..i] && w[..i + 1][..i] == w[..i] && f[i] - 0.0 == f[i];
    }
  }

  lemma {:induction false} FlatSame(s: seq<seq<real>>, v: seq<seq<real>>)
    requires |s| == |v| && forall b :: 0 <= b < |s| ==> |s[b]| == |v[b]|
    ensures |Flat(s)| == |Flat(v)|
  {
    if s == [] {
    } else {
      FlatSame(s[..|s| - 1], v[..|v| - 1]);
    }
  }

  lemma {:induction false} RowSumAppend(e: Fun, s: seq<real>, t: seq<real>, m: real)
    ensures RowSum(e, s + t, m) == RowSum(e, s, m) + RowSum(e, t, m)
  {
    if t == [] {
      assert s + t == s;
    } else {
      assert (s + t)[..|s + t| - 1] == s + t[..|t| - 1];
      RowSumAppend(e, s, t[..|t| - 1], m);
    }
  }

  lemma {:induction false} WeightedAppend(e: Fun, s: seq<real>, t: seq<real>, v: seq<real>, w: seq<real>, m: real)
    requires |s| == |v| && |t| == |w|
    ensures Weighted(e, s + t, v + w, m) == Weighted(e, s, v, m) + Weighted(e, t, w, m)
  {
    if t == [] {
      assert s + t == s && v + w == v;
    } else {
      assert (s + t)[..|s + t| - 1] == s + t[..|t| - 1] && (v + w)[..|v + w| - 1] == v + w[..|w| - 1];
      WeightedAppend(e, s, t[..|t| - 1], v, w[..|w| - 1], m);
    }
  }

  lemma {:induction false} NormFlat(e: Fun, s: seq<seq<real>>, m: real, k: nat)
    requires k <= |s|
    ensures Norm(e, s, m, k) == RowSum(e, Flat(s[..k]), m)
  {
    if k == 0 {
    } else {
      NormFlat(e, s, m, k - 1);
      assert s[..k][..k - 1] == s[..k - 1];
      RowSumAppend(e, Flat(s[..k - 1]), s[k - 1], m);
    }
  }

  lemma {:induction false} NumeratorFlat(e: Fun, s: seq<seq<real>>, v: seq<seq<real>>, m: real, k: nat)
    requires Blocks(s, v) && k <= |s|
    ensures |Flat(s[..k])| == |Flat(v[..k])| && Numerator(e, s, v, m, k) == Weighted(e, Flat(s[..k]), Flat(v[..k]), m)
  {
    FlatSame(s[..k], v[..k]);
    if k == 0 {
    } else {
      NumeratorFlat(e, s, v, m, k - 1);
      assert s[..k][..k - 1] == s[..k - 1] && v[..k][..k - 1] == v[..k - 1];
      WeightedAppend(e, Flat(s[..k - 1]), s[k - 1], Flat(v[..k - 1]), v[k - 1], m);
    }
  }

  // ----- the excess

  /** The numerator in which block b counts exp(2 * (m - maximum up to block b)) times too much. */
  function Inflated(e: Fun, s: seq<seq<real>>, v: seq<seq<real>>, m: real, k: nat): real
    requires Blocks(s, v) && k <= |s|
  {
    if k == 0 then 0.0
    else Inflated(e, s, v, m, k - 1) + Weighted(e, s[k - 1], v[k - 1], m) * Excess(e, s, m, k - 1)
  }

  function Excess(e: Fun, s: seq<seq<real>>, m: real, b: nat): real
    requires b < |s| && |s[0]| > 0
  {
    e((m - Top(s, b + 1)) + (m - Top(s, b + 1)))
  }

  lemma ExcessMoves(e: Fun, t: real, m: real, m': real)
    requires Exponential(e)
    ensures e(m - m') * e((m' - t) + (m' - t)) == e((m - t) + (m - t)) * e(m' - m)
  {
    var d := m' - m;
    assert Splits(e, (m - t) + (m - t), d + d);
    assert ((m - t) + (m - t)) + (d + d) == (m' - t) + (m' - t);
    assert Splits(e, d, d);
    assert Splits(e, m - m', d);
    assert (m - m') + d == 0.0;
    ExpZero(e);
    MoveProducts(e(m - m'), e(d), e((m - t) + (m - t)));
  }

  lemma MoveProducts(a: real, b: real, c: real)
    requires a * b == 1.0
    ensures a * (c * (b * b)) == c * b
  {
    assert a * (c * (b * b)) == c * ((a * b) * b);
  }

  lemma ExpZero(e: Fun)
    requires Exponential(e)
    ensures e(0.0) == 1.0
  {
    ExpFixed(e, 0.0);
  }

  lemma Product(e: Fun, x: real, y: real, a: real, b: real)
    requires Exponential(e) && a == e(x) && b == e(y)
    ensures e(x + y) == a * b
  {
    assert Splits(e, x, y);
  }

  lemma ExpFixed(e: Fun, z: real)
    requires Exponential(e) && z + z == z
    ensures e(z) == 1.0
  {
    var a := e(z);
    Product(e, z, z, a, a);
    One(a);
  }

  lemma One(x: real)
    requires x > 0.0 && x == x * x
    ensures x == 1.0
  {}

  lemma ExpInverse(e: Fun, x: real)
    requires Exponential(e)
    ensures e(x) * e(-x) == 1.0
  {
    assert Splits(e, x, -x);
    assert x + -x == 0.0;
    ExpZero(e);
  }

  /** Moving the maximum divides the inflated numerator by the factor. */
  lemma {:induction false} InflatedMoves(e: Fun, s: seq<seq<real>>, v: seq<seq<real>>, m: real, m': real, k: nat)
    requires Exponential(e) && Blocks(s, v) && k <= |s|
    ensures Inflated(e, s, v, m', k) == Inflated(e, s, v, m, k) * e(m' - m)
  {
    if k == 0 {
    } else {
      InflatedMoves(e, s, v, m, m', k - 1);
      var w, f, x := Weighted(e, s[k - 1], v[k - 1], m), e(m' - m), Excess(e, s, m, k - 1);
      TermMoves(e, s, v, m, m', k - 1, w, f, x);
      Distribute(Inflated(e, s, v, m, k - 1), w * x, f);
    }
  }

  lemma TermMoves(e: Fun, s: seq<seq<real>>, v: seq<seq<real>>, m: real, m': real, b: nat, w: real, f: real, x: real)
    requires Exponential(e) && Blocks(s, v) && b < |s|
    requires w == Weighted(e, s[b], v[b], m) && f == e(m' - m) && x == Excess(e, s, m, b)
    ensures Weighted(e, s[b], v[b], m') * Excess(e, s, m', b) == (w * x) * f
  {
    WeightedRescaled(e, s[b], v[b], m, m');
    ExcessMoves(e, Top(s, b + 1), m, m');
    Term(w, e(m - m'), Excess(e, s, m', b), x, f);
  }

  lemma Term(w: real, a: real, x: real, y: real, b: real)
    requires a * x == y * b
    ensures (w * a) * x == (w * y) * b
  {
    assert (w * a) * x == w * (a * x);
    assert (w * y) * b == w * (y * b);
  }

  /** The accumulator, in closed form. */
  lemma {:induction false} GotIs(e: Fun, s: seq<seq<real>>, v: seq<seq<real>>, k: nat)
    requires Exponential(e) && Blocks(s, v) && 0 < k <= |s|
    ensures Got(e, s, v, k) == Inflated(e, s, v, Top(s, k), k)
  {
    ExpZero(e);
    assert Excess(e, s, Top(s, k), k - 1) == 1.0;
    if k == 1 {
      assert Inflated(e, s, v, Top(s, 1), 0) == 0.0;
    } else {
      GotIs(e, s, v, k - 1);
      GotStep(e, s, v, k - 1, Top(s, k - 1), Top(s, k));
    }
  }

  lemma {:induction false} GotStep(e: Fun, s: seq<seq<real>>, v: seq<seq<real>>, k: nat, m: real, m': real)
    requires Exponential(e) && Blocks(s, v) && 0 < k < |s| && m == Top(s, k) && m' == Top(s, k + 1)
    requires Got(e, s, v, k) == Inflated(e, s, v, m, k)
    ensures Got(e, s, v, k + 1) == Inflated(e, s, v, m', k + 1)
  {
    GotNext(e, s, v, k, m, m');
    InflatedMoves(e, s, v, m, m', k);
    ExpInverse(e, m - m');
    assert -(m - m') == m' - m;
    ExpZero(e);
    assert Excess(e, s, m', k) == 1.0;
    Combine(Got(e, s, v, k), e(m - m'), e(m' - m), Weighted(e, s[k], v[k], m'), Excess(e, s, m', k));
  }

  lemma Combine(g: real, a: real, b: real, w: real, x: real)
    requires a > 0.0 && a * b == 1.0 && x == 1.0
    ensures g / a + w == g * b + w * x
  {
    Quotient(g, a, b);
    Times1(w, x);
  }

  lemma Times1(w: real, x: real)
    requires x == 1.0
    ensures w * x == w
  {}

  lemma Quotient(x: real, a: real, b: real)
    requires a > 0.0 && a * b == 1.0
    ensures x / a == x * b
  {
    assert x == (x * b) * a by { assert (x * b) * a == x * (a * b); }
    Divide(x * b, a);
  }

  // ----- when it is the softmax

  lemma {:induction false} TopGrows(s: seq<seq<real>>, j: nat, k: nat)
    requires 0 < j <= k <= |s| && |s[0]| > 0
    ensures Top(s, j) <= Top(s, k)
  {
    if j >= k {
    } else {
      TopGrows(s, j, k - 1);
      MaxFromIs(Top(s, k - 1), s[k - 1]);
    }
  }

  /** With the maximum in the first block, nothing is inflated. */
  lemma {:induction false} NothingInflated(e: Fun, s: seq<seq<real>>, v: seq<seq<real>>, m: real, k: nat)
    requires Exponential(e) && Blocks(s, v) && k <= |s| && m == Top(s, |s|) == Top(s, 1)
    ensures Inflated(e, s, v, m, k) == Numerator(e, s, v, m, k)
  {
    if k == 0 {
    } else {
      NothingInflated(e, s, v, m, k - 1);
      TopGrows(s, 1, k);
      TopGrows(s, k, |s|);
      ExpZero(e);
      assert Excess(e, s, m, k - 1) == 1.0;
    }
  }

  /** The output row is the softmax-weighted sum, whatever the values. */
  ghost predicate Exact(e: Fun, s: seq<seq<real>>)
    requires Exponential(e) && |s| > 0 && forall b :: 0 <= b < |s| ==> |s[b]| > 0
  {
    forall v: seq<seq<real>> :: Blocks(s, v) ==> Output(e, s, v) == Softmax(e, s, v)
  }

  /** What the row method returns. */
  function Output(e: Fun, s: seq<seq<real>>, v: seq<seq<real>>): real
    requires Exponential(e) && Blocks(s, v)
  {
    NormPositive(e, s, Top(s, |s|), |s|);
    Got(e, s, v, |s|) / Norm(e, s, Top(s, |s|), |s|)
  }

  /** The value one for the first score, and zero for the others. */
  function First(s: seq<seq<real>>): (v: seq<seq<real>>)
    ensures |v| == |s| && forall b :: 0 <= b < |s| ==> |v[b]| == |s[b]|
  {
    seq(|s|, b requires 0 <= b < |s| => seq(|s[b]|, i => if b == 0 && i == 0 then 1.0 else 0.0))
  }

  lemma {:induction false} WeightedFirst(e: Fun, s: seq<real>, v: seq<real>, m: real)
    requires |s| == |v| && forall i :: 1 <= i < |s| ==> v[i] == 0.0
    ensures Weighted(e, s, v, m) == if s == [] then 0.0 else e(s[0] - m) * v[0]
    decreases |s|
  {
    if |s| <= 1 {
    } else {
      WeightedFirst(e, s[..|s| - 1], v[..|s| - 1], m);
    }
  }

  lemma {:induction false} SumsFirst(e: Fun, s: seq<seq<real>>, m: real, k: nat, a: real, x: real)
    requires Blocks(s, First(s)) && 0 < k <= |s| && a == e(s[0][0] - m) && x == Excess(e, s, m, 0)
    ensures Numerator(e, s, First(s), m, k) == a && Inflated(e, s, First(s), m, k) == a * x
  {
    FirstWeights(e, s, m, k - 1);
    if k == 1 {
      assert Numerator(e, s, First(s), m, 0) == 0.0 && Inflated(e, s, First(s), m, 0) == 0.0;
    } else {
      SumsFirst(e, s, m, k - 1, a, x);
      Nothing(Excess(e, s, m, k - 1));
    }
  }

  lemma FirstWeights(e: Fun, s: seq<seq<real>>, m: real, b: nat)
    requires Blocks(s, First(s)) && b < |s|
    ensures Weighted(e, s[b], First(s)[b], m) == if b == 0 then e(s[0][0] - m) else 0.0
  {
    var v := First(s)[b];
    WeightedFirst(e, s[b], v, m);
    var a := e(s[b][0] - m);
    assert v[0] == if b == 0 then 1.0 else 0.0;
    Nothing(a);
  }

  lemma Nothing(x: real)
    ensures 0.0 * x == 0.0 && x * 0.0 == 0.0 && x * 1.0 == x
  {}

  /** The output is exact for all values if and only if the maximum of the row lies in its first block (for an exponential
      that is one only at zero). */
  lemma ExactExactly(e: Fun, s: seq<seq<real>>)
    requires Exponential(e) && (forall x: real :: e(x) == 1.0 ==> x == 0.0)
    requires |s| > 0 && forall b :: 0 <= b < |s| ==> |s[b]| > 0
    ensures Exact(e, s) <==> Top(s, 1) == Top(s, |s|)
  {
    var n, m := |s|, Top(s, |s|);
    if Top(s, 1) == m {
      forall v: seq<seq<real>> | Blocks(s, v)
        ensures Output(e, s, v) == Softmax(e, s, v)
      {
        GotIs(e, s, v, n);
        NothingInflated(e, s, v, m, n);
        SoftmaxShifted(e, s, v, m);
      }
    }
    if Exact(e, s) {
      FirstBlockOnly(e, s);
    }
  }

  lemma {:induction false} FirstBlockOnly(e: Fun, s: seq<seq<real>>)
    requires Exponential(e) && (forall x: real :: e(x) == 1.0 ==> x == 0.0)
    requires Blocks(s, First(s)) && Output(e, s, First(s)) == Softmax(e, s, First(s))
    ensures Top(s, 1) == Top(s, |s|)
  {
    FirstScale(e, s, Top(s, |s|));
    OnlyZero(e, s, Top(s, |s|));
  }

  lemma {:induction false} FirstScale(e: Fun, s: seq<seq<real>>, m: real)
    requires Exponential(e) && Blocks(s, First(s)) && m == Top(s, |s|) && Output(e, s, First(s)) == Softmax(e, s, First(s))
    ensures Excess(e, s, m, 0) == 1.0
  {
    SameNumerator(e, s, First(s), m);
    FirstExcess(e, s, m);
  }

  lemma OnlyZero(e: Fun, s: seq<seq<real>>, m: real)
    requires (forall x: real :: e(x) == 1.0 ==> x == 0.0) && |s| > 0 && |s[0]| > 0 && Excess(e, s, m, 0) == 1.0
    ensures m == Top(s, 1)
  {
    var x := m - Top(s, 1);
    assert e(x + x) == 1.0;
  }

  lemma {:induction false} SameNumerator(e: Fun, s: seq<seq<real>>, v: seq<seq<real>>, m: real)
    requires Exponential(e) && Blocks(s, v) && m == Top(s, |s|) && Output(e, s, v) == Softmax(e, s, v)
    ensures Got(e, s, v, |s|) == Numerator(e, s, v, m, |s|)
  {
    SoftmaxShifted(e, s, v, m);
    SameQuotient(Got(e, s, v, |s|), Numerator(e, s, v, m, |s|), Norm(e, s, m, |s|));
  }

  lemma {:induction false} FirstExcess(e: Fun, s: seq<seq<real>>, m: real)
    requires Exponential(e) && Blocks(s, First(s)) && m == Top(s, |s|) && Got(e, s, First(s), |s|) == Numerator(e, s, First(s), m, |s|)
    ensures Excess(e, s, m, 0) == 1.0
  {
    GotIs(e, s, First(s), |s|);
    var a, x := e(s[0][0] - m), Excess(e, s, m, 0);
    SumsFirst(e, s, m, |s|, a, x);
    Unscaled(a, x, Inflated(e, s, First(s), m, |s|));
  }

  lemma SameQuotient(a: real, b: real, d: real)
    requires d > 0.0 && a / d == b / d
    ensures a == b
  {
    assert a == a / d * d && b == b / d * d;
  }

  lemma Unscaled(a: real, x: real, y: real)
    requires a > 0.0 && y == a * x && y == a
    ensures x == 1.0
  {}
}
