/** The trace annotator's decoding of floating-point bit patterns, for any exponent and mantissa width. Values are exact. */
module FloatDecode {
  import opened Arithmetic

  /** Widths of the exponent and of the mantissa field. */
  datatype Format = Format(exp: nat, mnt: nat)

  predicate Proper(f: Format) { f.exp >= 1 && f.mnt >= 1 }

  /** 2^e for any integer e. */
  function Pow(e: int): (r: real)
    ensures r > 0.0
    decreases if e < 0 then -e else e
  {
    if e == 0 then 1.0 else if e > 0 then 2.0 * Pow(e - 1) else Pow(e + 1) / 2.0
  }

  lemma PowStep(e: int)
    ensures Pow(0) == 1.0 && Pow(e + 1) == 2.0 * Pow(e)
  {}

  datatype Value = Finite(x: real) | Infinity(negative: bool) | NaN

  // ----- the fields of a bit pattern

  function Mantissa(f: Format, v: nat): (r: nat)
    ensures r < Pow2(f.mnt)
  {
    Rem(v, Pow2(f.mnt))
  }

  function Exponent(f: Format, v: nat): (r: nat)
    ensures r < Pow2(f.exp)
  {
    Rem(Quot(v, Pow2(f.mnt)), Pow2(f.exp))
  }

  function Negative(f: Format, v: nat): bool { Rem(Quot(Quot(v, Pow2(f.mnt)), Pow2(f.exp)), 2) == 1 }

  function Bias(f: Format): int
    requires Proper(f)
  {
    -(Pow2(f.exp - 1) - 1)
  }

  /** m units of p / t. */
  function Scale(m: nat, t: nat, p: real): real
    requires t > 0
  {
    m as real / t as real * p
  }

  /** The power of a finite pattern: subnormal numbers have that of the smallest normal ones (lines 339 to 349). */
  function Power(f: Format, exp: nat): real
    requires Proper(f)
  {
    if exp == 0 then Pow(Bias(f) + 1) else Pow(exp + Bias(f))
  }

  /** The magnitude of a finite pattern, by its fields: normal numbers have a leading one. */
  function Scaled(f: Format, mnt: nat, exp: nat): real
    requires Proper(f)
  {
    Scale(if exp == 0 then mnt else Pow2(f.mnt) + mnt, Pow2(f.mnt), Power(f, exp))
  }

  function Magnitude(f: Format, v: nat): real
    requires Proper(f)
  {
    Scaled(f, Mantissa(f, v), Exponent(f, v))
  }

  function Decode(f: Format, v: nat): Value
    requires Proper(f)
  {
    if Exponent(f, v) == Pow2(f.exp) - 1 then (if Mantissa(f, v) == 0 then Infinity(Negative(f, v)) else NaN)
    else Finite(if Negative(f, v) then -1.0 * Magnitude(f, v) else 1.0 * Magnitude(f, v))
  }

  // ----- one pattern to the next

  /** The distance between neighbours with exponent field exp. */
  function Ulp(f: Format, exp: nat): real
    requires Proper(f)
  {
    Scale(1, Pow2(f.mnt), Power(f, exp))
  }

  lemma ScalePositive(t: nat, p: real)
    requires t > 0 && p > 0.0
    ensures Scale(1, t, p) > 0.0
  {
    Positive(1.0, t as real);
  }

  lemma Positive(p: real, t: real)
    requires p > 0.0 && t > 0.0
    ensures p / t > 0.0
  {}

  lemma ScaleNext(m: nat, t: nat, p: real)
    requires t > 0
    ensures Scale(m + 1, t, p) == Scale(m, t, p) + Scale(1, t, p)
  {
    var a, b, c := m as real / t as real, 1.0 / t as real, (m + 1) as real / t as real;
    assert c == a + b by { Fractions(m as real, 1.0, t as real); }
    Distribute(a, b, p);
  }

  lemma Fractions(x: real, y: real, t: real)
    requires t > 0.0
    ensures (x + y) / t == x / t + y / t
  {}

  lemma Distribute(a: real, b: real, p: real)
    ensures (a + b) * p == a * p + b * p
  {}

  /** Twice as many units of half the size. */
  lemma ScaleDouble(m: nat, t: nat, p: real)
    requires t > 0
    ensures Scale(m, t, 2.0 * p) == Scale(2 * m, t, p)
  {
    var a, b := m as real / t as real, (2 * m) as real / t as real;
    assert b == a + a by { Fractions(m as real, m as real, t as real); }
    Doubling(a, p);
  }

  lemma Doubling(a: real, p: real)
    ensures a * (2.0 * p) == (a + a) * p
  {}

  /** Non-negative patterns: the sign bit is off and the exponent field is not all ones. */
  predicate Plain(f: Format, v: nat) { v < (Pow2(f.exp) - 1) * Pow2(f.mnt) }

  lemma PlainFields(f: Format, v: nat)
    requires Proper(f) && Plain(f, v)
    ensures Exponent(f, v) == Quot(v, Pow2(f.mnt)) < Pow2(f.exp) - 1 && !Negative(f, v)
  {
    var t, q := Pow2(f.mnt), Quot(v, Pow2(f.mnt));
    assert v == q * t + Rem(v, t);
    MulFar(q - (Pow2(f.exp) - 1), t);
    assert (q - (Pow2(f.exp) - 1)) * t == q * t - (Pow2(f.exp) - 1) * t;
    assert 0 * Pow2(f.exp) == 0;
    DivUnique(q, Pow2(f.exp), 0, q);
  }

  /** One more in the mantissa, or a carry into the exponent, is one unit more. */
  lemma NextScaled(f: Format, mnt: nat, exp: nat)
    requires Proper(f) && mnt < Pow2(f.mnt)
    ensures (if mnt < Pow2(f.mnt) - 1 then Scaled(f, mnt + 1, exp) else Scaled(f, 0, exp + 1)) == Scaled(f, mnt, exp) + Ulp(f, exp)
  {
    var t := Pow2(f.mnt);
    if mnt < t - 1 || exp == 0 {
      ScaleNext(if exp == 0 then mnt else t + mnt, t, Power(f, exp));
    } else {
      PowStep(exp + Bias(f));
      assert exp + 1 + Bias(f) == exp + Bias(f) + 1;
      ScaleDouble(t, t, Power(f, exp));
      ScaleNext(t + mnt, t, Power(f, exp));
    }
  }

  lemma NextFields(f: Format, v: nat)
    requires Proper(f) && Plain(f, v) && Plain(f, v + 1)
    ensures if Mantissa(f, v) < Pow2(f.mnt) - 1 then Mantissa(f, v + 1) == Mantissa(f, v) + 1 && Exponent(f, v + 1) == Exponent(f, v)
            else Mantissa(f, v + 1) == 0 && Exponent(f, v + 1) == Exponent(f, v) + 1
  {
    PlainFields(f, v);
    PlainFields(f, v + 1);
    DivStep(v, Pow2(f.mnt));
  }

  /** The next pattern is one unit further on, across zero, subnormal and normal numbers alike. */
  lemma NextIsUlp(f: Format, v: nat)
    requires Proper(f) && Plain(f, v) && Plain(f, v + 1)
    ensures Magnitude(f, v + 1) == Magnitude(f, v) + Ulp(f, Exponent(f, v))
  {
    NextFields(f, v);
    NextScaled(f, Mantissa(f, v), Exponent(f, v));
  }

  // ----- order, injectivity and sign

  /** Decoding is strictly increasing on the non-negative finite patterns. */
  lemma {:induction false} Increasing(f: Format, v: nat, w: nat)
    requires Proper(f) && v < w && Plain(f, w)
    ensures Magnitude(f, v) < Magnitude(f, w)
    decreases w
  {
    NextIsUlp(f, w - 1);
    ScalePositive(Pow2(f.mnt), Power(f, Exponent(f, w - 1)));
    if v >= w - 1 {
    } else {
      Increasing(f, v, w - 1);
    }
  }

  /** So the order of the values is the order of the patterns, and no two decode alike. */
  lemma OrderPreserved(f: Format, v: nat, w: nat)
    requires Proper(f) && Plain(f, v) && Plain(f, w)
    ensures Decode(f, v).Finite? && Decode(f, w).Finite?
    ensures Decode(f, v).x < Decode(f, w).x <==> v < w
    ensures Decode(f, v) == Decode(f, w) <==> v == w
  {
    PlainFields(f, v);
    PlainFields(f, w);
    if v < w {
      Increasing(f, v, w);
    } else if w < v {
      Increasing(f, w, v);
    }
  }

  /** Setting the sign bit negates the value. */
  lemma SignNegates(f: Format, v: nat)
    requires Proper(f) && Plain(f, v)
    ensures var w := v + Pow2(f.exp) * Pow2(f.mnt);
            Decode(f, v).Finite? && Decode(f, w) == Finite(-Decode(f, v).x)
  {
    PlainFields(f, v);
    SignField(f, v);
  }

  lemma SignField(f: Format, v: nat)
    requires Proper(f) && Plain(f, v)
    ensures var w := v + Pow2(f.exp) * Pow2(f.mnt);
            Mantissa(f, w) == Mantissa(f, v) && Exponent(f, w) == Exponent(f, v) && Negative(f, w)
  {
    var t, e, q := Pow2(f.mnt), Pow2(f.exp), Quot(v, Pow2(f.mnt));
    PlainFields(f, v);
    PastField(v, e, t);
    TopBit(q, e);
  }

  lemma PastField(v: nat, e: nat, t: nat)
    requires t > 0
    ensures Quot(v + e * t, t) == Quot(v, t) + e && Rem(v + e * t, t) == Rem(v, t)
  {
    var q := Quot(v, t);
    assert (q + e) * t == q * t + e * t;
    DivUnique(v + e * t, t, q + e, Rem(v, t));
  }

  lemma TopBit(q: nat, e: nat)
    requires q < e
    ensures Quot(q + e, e) == 1 && Rem(q + e, e) == q
  {
    assert q + e == 1 * e + q;
    DivUnique(q + e, e, 1, q);
  }

  // ----- by the fields

  /** The value of a pattern from its sign bit, exponent field e and mantissa field m: an exponent of all ones is an infinity
      with an empty mantissa and otherwise not a number; an empty exponent is m / 2^mnt with the smallest power of two; any other
      has a leading one, and the power e - (2^(exp - 1) - 1). */
  lemma DecodeFields(f: Format, v: nat, s: nat, e: nat, m: nat)
    requires Proper(f) && s < 2 && e < Pow2(f.exp) && m < Pow2(f.mnt) && v == (s * Pow2(f.exp) + e) * Pow2(f.mnt) + m
    ensures Decode(f, v) ==
              var x := if e == 0 then m as real / Pow2(f.mnt) as real * Pow(2 - Pow2(f.exp - 1))
                       else (Pow2(f.mnt) + m) as real / Pow2(f.mnt) as real * Pow(e - (Pow2(f.exp - 1) - 1));
              if e == Pow2(f.exp) - 1 then (if m == 0 then Infinity(s == 1) else NaN) else Finite(if s == 1 then -x else x)
  {
    var q := s * Pow2(f.exp) + e;
    DivUnique(v, Pow2(f.mnt), q, m);
    DivUnique(q, Pow2(f.exp), s, e);
    assert Mantissa(f, v) == m && Exponent(f, v) == e && Quot(Quot(v, Pow2(f.mnt)), Pow2(f.exp)) == s;
    ScaledIs(f, m, e);
    assert Magnitude(f, v) == Scaled(f, m, e) && (Negative(f, v) <==> s == 1);
  }

  lemma ScaledIs(f: Format, m: nat, e: nat)
    requires Proper(f)
    ensures Scaled(f, m, e) == if e == 0 then m as real / Pow2(f.mnt) as real * Pow(2 - Pow2(f.exp - 1))
                               else (Pow2(f.mnt) + m) as real / Pow2(f.mnt) as real * Pow(e - (Pow2(f.exp - 1) - 1))
  {
    var k := if e == 0 then 2 - Pow2(f.exp - 1) else e - (Pow2(f.exp - 1) - 1);
    assert Power(f, e) == Pow(k);
  }

  /** In every format that has it the pattern with exponent field 2^(exp - 1) - 1 and an empty mantissa is one. */
  lemma OneDecodes(f: Format)
    requires Proper(f) && f.exp >= 2
    ensures Decode(f, (Pow2(f.exp - 1) - 1) * Pow2(f.mnt)) == Finite(1.0)
  {
    var e, t := Pow2(f.exp - 1) - 1, Pow2(f.mnt);
    Halves(f);
    DivUnique(e * t, t, e, 0);
    PlainFields(f, e * t);
    UnitScale(t);
    assert Magnitude(f, e * t) == Scale(t, t, Pow(0));
  }

  lemma Halves(f: Format)
    requires Proper(f) && f.exp >= 2
    ensures 1 <= Pow2(f.exp - 1) - 1 < Pow2(f.exp) - 1 && Plain(f, (Pow2(f.exp - 1) - 1) * Pow2(f.mnt))
  {
    assert Pow2(f.exp) == 2 * Pow2(f.exp - 1) && Pow2(f.exp - 1) == 2 * Pow2(f.exp - 2);
    GroupFits(Pow2(f.exp - 1) - 1, Pow2(f.exp) - 1, Pow2(f.mnt));
  }

  lemma UnitScale(t: nat)
    requires t > 0
    ensures Scale(t, t, 1.0) == 1.0
  {}
}
