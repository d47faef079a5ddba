/** Integer arithmetic the modules share: 32-bit words, division with its uniqueness, and row-major positions. */
module Arithmetic {

  // ----- 32-bit words

  const WORD: nat := 0x1_0000_0000

  function Inc(x: nat): nat { if x + 1 == WORD then 0 else x + 1 }
  function Dec(x: nat): nat { if x == 0 then WORD - 1 else x - 1 }

  /** Conversion to a 32-bit size_t. */
  function Wrap(x: int): (w: nat)
    ensures w < WORD
  {
    x % WORD
  }

  lemma WrapAdd(x: int, y: int)
    ensures Wrap(x + Wrap(y)) == Wrap(x + y)
    ensures Wrap(Wrap(x) + y) == Wrap(x + y)
  {}

  lemma WrapMul(x: int, y: int)
    ensures Wrap(Wrap(x) * y) == Wrap(x * y)
  {
    var q := x / WORD;
    assert x * y == Wrap(x) * y + WORD * (q * y) by {
      assert x == Wrap(x) + WORD * q;
    }
    WrapShift(Wrap(x) * y, q * y);
  }

  lemma WrapShift(x: int, k: int)
    ensures Wrap(x + WORD * k) == Wrap(x)
  {}

  lemma WrapSub(x: int, y: int)
    ensures Wrap(x - Wrap(y)) == Wrap(x - y)
  {}

  // ----- division

  function Quot(t: nat, d: nat): (q: nat)
    requires d > 0
    ensures q == t / d
  {
    QuotNat(t, d);
    t / d
  }

  lemma QuotNat(t: nat, d: nat)
    requires d > 0
    ensures t / d >= 0
  {
    MulFar(t / d, d);
  }

  function Rem(t: nat, d: nat): (r: nat)
    requires d > 0
    ensures r == t % d < d
  {
    t % d
  }

  lemma DivUnique(x: int, d: int, q: int, r: int)
    requires d > 0 && x == q * d + r && 0 <= r < d
    ensures x / d == q && x % d == r
  {
    var e := x / d - q;
    assert x == (x / d) * d + x % d;
    assert e * d == r - x % d by { assert e * d == (x / d) * d - q * d; }
    MulFar(e, d);
  }

  lemma MulFar(e: int, d: int)
    requires d > 0
    ensures e >= 1 ==> e * d >= d
    ensures e <= -1 ==> e * d <= -d
  {}

  lemma DivStep(t: nat, d: nat)
    requires d > 0
    ensures if t % d < d - 1 then (t + 1) % d == t % d + 1 && (t + 1) / d == t / d
            else (t + 1) % d == 0 && (t + 1) / d == t / d + 1
  {
    var q, r := t / d, t % d;
    assert t == q * d + r;
    if r < d - 1 {
      DivUnique(t + 1, d, q, r + 1);
    } else {
      assert (q + 1) * d == q * d + d;
      DivUnique(t + 1, d, q + 1, 0);
    }
  }

  // ----- row-major positions

  /** A group of `size` with `rest` more after it. */
  lemma GroupThenRest(group: nat, rest: nat, size: nat)
    ensures group * size + size <= (group + 1 + rest) * size
  {
    assert (group + 1 + rest) * size == group * size + size + rest * size;
  }

  lemma GroupFits(group: nat, groups: nat, size: nat)
    requires group < groups
    ensures group * size + size <= groups * size
  {
    GroupThenRest(group, groups - group - 1, size);
  }

  lemma PairBound(r: nat, q: nat, rows: nat, cols: nat)
    requires r < rows && q < cols
    ensures r * cols + q < rows * cols
  {
    GroupFits(r, rows, cols);
  }

  lemma PairUnique(cols: nat, r: nat, q: nat, r': nat, q': nat)
    requires q < cols && q' < cols && r * cols + q == r' * cols + q'
    ensures r == r' && q == q'
  {
    var d := r - r';
    assert d * cols == q' - q by { assert d * cols == r * cols - r' * cols; }
    MulFar(d, cols);
  }

  // ----- powers of two

  function Pow2(k: nat): (r: nat)
    ensures r > 0
  {
    if k == 0 then 1 else 2 * Pow2(k - 1)
  }
}
