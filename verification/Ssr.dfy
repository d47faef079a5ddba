/** Stream semantic registers: the configuration functions that program a loop nest as delta-encoded strides,
    the address generator they target, and the proof that the generator walks the loop nest. */
module Ssr {
  import opened Arithmetic

  // ----- the address generator

  /** The loop indices after one more element, innermost loop first; `bounds` are the last index of each loop. */
  function Bump(idx: seq<nat>, bounds: seq<nat>): (r: seq<nat>)
    requires |idx| == |bounds|
    ensures |r| == |idx|
  {
    if idx == [] then []
    else if idx[0] < bounds[0] then [idx[0] + 1] + idx[1..]
    else [0] + Bump(idx[1..], bounds[1..])
  }

  /** The programmed stride of the innermost loop that is not at its bound. */
  function Jump(idx: seq<nat>, bounds: seq<nat>, strides: seq<int>): int
    requires |idx| == |bounds| == |strides|
  {
    if idx == [] then 0
    else if idx[0] < bounds[0] then strides[0]
    else Jump(idx[1..], bounds[1..], strides[1..])
  }

  function Index(bounds: seq<nat>, t: nat): (r: seq<nat>)
    ensures |r| == |bounds|
  {
    if t == 0 then seq(|bounds|, _ => 0) else Bump(Index(bounds, t - 1), bounds)
  }

  /** The address of element t of a stream started at `base`. */
  function Walk(bounds: seq<nat>, strides: seq<nat>, base: nat, t: nat): (address: nat)
    requires |bounds| == |strides|
    ensures address < WORD
  {
    if t == 0 then Wrap(base)
    else Wrap(Walk(bounds, strides, base, t - 1) + Jump(Index(bounds, t - 1), bounds, strides))
  }

  /** A data mover: its configuration registers and its generator. `steps` counts the elements it has gone past. */
  class Lane {
    var bound: seq<nat>
    var stride: seq<nat>
    var repeat: nat
    var idx: seq<nat>
    var ptr: nat
    var served: nat
    ghost var base: nat
    ghost var steps: nat

    ghost predicate Configured()
      reads this
    {
      |bound| == |stride| == 4 && (forall i :: 0 <= i < 4 ==> bound[i] < WORD && stride[i] < WORD) && repeat < WORD
    }

    /** A stream over the first |idx| loops is running. */
    ghost predicate Valid()
      reads this
    {
      && Configured() && 0 < |idx| <= 4 && served <= repeat
      && idx == Index(bound[..|idx|], steps)
      && ptr == Walk(bound[..|idx|], stride[..|idx|], base, steps)
    }

    constructor ()
      ensures Configured()
    {
      bound, stride, repeat := [0, 0, 0, 0], [0, 0, 0, 0], 0;
      idx, ptr, served := [], 0, 0;
    }

    // ----- configuration; the argument lists are those of a 32-bit size_t

    method Loop1d(b0: nat, s0: nat)
      requires Configured() && b0 < WORD && s0 < WORD
      modifies this
      ensures Configured() && repeat == old(repeat)
      ensures bound == [Wrap(b0 - 1)] + old(bound[1..]) && stride == Wraps(Deltas([Wrap(b0 - 1)], [s0], 0)) + old(stride[1..])
    {
      var b := Wrap(b0 - 1);
      bound := bound[0 := b];
      var a := 0;
      stride := stride[0 := Wrap(s0 - a)];
      a := Wrap(a + s0 * b);
    }

    method Loop2d(b0: nat, b1: nat, s0: nat, s1: nat)
      requires Configured() && b0 < WORD && b1 < WORD && s0 < WORD && s1 < WORD
      modifies this
      ensures Configured() && repeat == old(repeat)
      ensures bound == [Wrap(b0 - 1), Wrap(b1 - 1)] + old(bound[2..])
      ensures stride == Wraps(Deltas([Wrap(b0 - 1), Wrap(b1 - 1)], [s0, s1], 0)) + old(stride[2..])
    {
      var c0, c1 := Wrap(b0 - 1), Wrap(b1 - 1);
      bound := bound[0 := c0];
      bound := bound[1 := c1];
      var a := 0;
      stride := stride[0 := Wrap(s0 - a)];
      a := Wrap(a + s0 * c0);
      stride := stride[1 := Wrap(s1 - a)];
      a := Wrap(a + s1 * c1);
      Deltas2(c0, c1, s0, s1);
      assert stride == Wraps(Deltas([c0, c1], [s0, s1], 0)) + stride[2..] && old(stride[2..]) == stride[2..];
    }

    method Loop3d(b0: nat, b1: nat, b2: nat, s0: nat, s1: nat, s2: nat)
      requires Configured() && b0 < WORD && b1 < WORD && b2 < WORD && s0 < WORD && s1 < WORD && s2 < WORD
      modifies this
      ensures Configured() && repeat == old(repeat)
      ensures bound == [Wrap(b0 - 1), Wrap(b1 - 1), Wrap(b2 - 1)] + old(bound[3..])
      ensures stride == Wraps(Deltas([Wrap(b0 - 1), Wrap(b1 - 1), Wrap(b2 - 1)], [s0, s1, s2], 0)) + old(stride[3..])
    {
      var c0, c1, c2 := Wrap(b0 - 1), Wrap(b1 - 1), Wrap(b2 - 1);
      bound := bound[0 := c0];
      bound := bound[1 := c1];
      bound := bound[2 := c2];
      var a := 0;
      stride := stride[0 := Wrap(s0 - a)];
      a := Wrap(a + s0 * c0);
      stride := stride[1 := Wrap(s1 - a)];
      a := Wrap(a + s1 * c1);
      stride := stride[2 := Wrap(s2 - a)];
      a := Wrap(a + s2 * c2);
      Deltas3(c0, c1, c2, s0, s1, s2);
      assert stride == Wraps(Deltas([c0, c1, c2], [s0, s1, s2], 0)) + stride[3..] && old(stride[3..]) == stride[3..];
    }

    method Loop4d(b0: nat, b1: nat, b2: nat, b3: nat, s0: nat, s1: nat, s2: nat, s3: nat)
      requires Configured() && b0 < WORD && b1 < WORD && b2 < WORD && b3 < WORD
      requires s0 < WORD && s1 < WORD && s2 < WORD && s3 < WORD
      modifies this
      ensures Configured() && repeat == old(repeat)
      ensures bound == [Wrap(b0 - 1), Wrap(b1 - 1), Wrap(b2 - 1), Wrap(b3 - 1)]
      ensures stride == Wraps(Deltas([Wrap(b0 - 1), Wrap(b1 - 1), Wrap(b2 - 1), Wrap(b3 - 1)], [s0, s1, s2, s3], 0))
    {
      var c0, c1, c2, c3 := Wrap(b0 - 1), Wrap(b1 - 1), Wrap(b2 - 1), Wrap(b3 - 1);
      bound := bound[0 := c0];
      bound := bound[1 := c1];
      bound := bound[2 := c2];
      bound := bound[3 := c3];
      var a := 0;
      stride := stride[0 := Wrap(s0 - a)];
      a := Wrap(a + s0 * c0);
      stride := stride[1 := Wrap(s1 - a)];
      a := Wrap(a + s1 * c1);
      stride := stride[2 := Wrap(s2 - a)];
      a := Wrap(a + s2 * c2);
      stride := stride[3 := Wrap(s3 - a)];
      a := Wrap(a + s3 * c3);
      Deltas4(c0, c1, c2, c3, s0, s1, s2, s3);
    }

    method Repeat(count: nat)
      requires Configured() && count < WORD
      modifies this`repeat
      ensures Configured() && repeat == Wrap(count - 1)
    {
      repeat := Wrap(count - 1);
    }

    /** Writing the read pointer of rank dims starts the stream over the dims innermost loops. */
    method Read(dims: nat, pointer: nat)
      requires Configured() && 0 < dims <= 4 && pointer < WORD
      modifies this`idx, this`ptr, this`served, this`base, this`steps
      ensures Valid() && |idx| == dims && base == pointer && steps == 0 && served == 0
    {
      idx := seq(dims, _ => 0);
      ptr, served := pointer, 0;
      base, steps := pointer, 0;
    }

    /** Writing the write pointer starts a stream of stores; the address generator is the same one. */
    method Write(dims: nat, pointer: nat)
      requires Configured() && 0 < dims <= 4 && pointer < WORD
      modifies this`idx, this`ptr, this`served, this`base, this`steps
      ensures Valid() && |idx| == dims && base == pointer && steps == 0 && served == 0
    {
      Read(dims, pointer);
    }

    /** The address of the next element; an element is served repeat + 1 times before the generator moves on. */
    method Pop() returns (address: nat)
      requires Valid()
      modifies this`idx, this`ptr, this`served, this`steps
      ensures Valid() && |idx| == old(|idx|)
      ensures address == Walk(bound[..|idx|], stride[..|idx|], base, old(steps))
      ensures if old(served) < repeat then served == old(served) + 1 && steps == old(steps)
              else served == 0 && steps == old(steps) + 1
    {
      address := ptr;
      if served < repeat {
        served := served + 1;
      } else {
        served := 0;
        ghost var bs, ss := bound[..|idx|], stride[..|idx|];
        ptr := Wrap(ptr + Jump(idx, bound[..|idx|], stride[..|idx|]));
        idx := Bump(idx, bound[..|idx|]);
        steps := steps + 1;
        assert idx == Index(bs, steps) && ptr == Walk(bs, ss, base, steps);
      }
    }
  }

  // ----- the encoding

  /** The strides the code programs for loops with last indices `bounds` and strides `s`; `a` is the code's
      accumulator, the distance covered by the loops inside. */
  function Deltas(bounds: seq<nat>, s: seq<int>, a: int): (r: seq<int>)
    requires |bounds| == |s|
    ensures |r| == |s|
  {
    if s == [] then [] else [s[0] - a] + Deltas(bounds[1..], s[1..], a + s[0] * bounds[0])
  }

  function Wraps(s: seq<int>): (r: seq<nat>)
    ensures |r| == |s| && forall i :: 0 <= i < |s| ==> r[i] == Wrap(s[i])
  {
    seq(|s|, i requires 0 <= i < |s| => Wrap(s[i]))
  }

  /** What the configuration functions compute step by step, with a 32-bit accumulator, is the encoding. */
  lemma Deltas2(c0: nat, c1: nat, s0: int, s1: int)
    ensures Wraps(Deltas([c0, c1], [s0, s1], 0)) == [Wrap(s0), Wrap(s1 - Wrap(s0 * c0))]
  {
    WrapSub(s1, s0 * c0);
    assert [c0, c1][1..] == [c1] && [s0, s1][1..] == [s1];
    assert Deltas([c1], [s1], s0 * c0) == [s1 - s0 * c0];
  }

  lemma Deltas3(c0: nat, c1: nat, c2: nat, s0: int, s1: int, s2: int)
    ensures Wraps(Deltas([c0, c1, c2], [s0, s1, s2], 0))
            == [Wrap(s0), Wrap(s1 - Wrap(s0 * c0)), Wrap(s2 - Wrap(Wrap(s0 * c0) + s1 * c1))]
  {
    var a1 := s0 * c0;
    var a2 := a1 + s1 * c1;
    Exact3(c0, c1, c2, s0, s1, s2);
    WrapSub(s1, a1);
    WrapAdd(a1, s1 * c1);
    WrapSub(s2, a2);
  }

  lemma Exact3(c0: nat, c1: nat, c2: nat, s0: int, s1: int, s2: int)
    ensures Deltas([c0, c1, c2], [s0, s1, s2], 0) == [s0, s1 - s0 * c0, s2 - (s0 * c0 + s1 * c1)]
  {
    var a1 := s0 * c0;
    var a2 := a1 + s1 * c1;
    assert [c0, c1, c2][1..] == [c1, c2] && [s0, s1, s2][1..] == [s1, s2];
    assert [c1, c2][1..] == [c2] && [s1, s2][1..] == [s2];
    assert Deltas([c2], [s2], a2) == [s2 - a2];
    assert Deltas([c1, c2], [s1, s2], a1) == [s1 - a1, s2 - a2];
  }

  lemma Deltas4(c0: nat, c1: nat, c2: nat, c3: nat, s0: int, s1: int, s2: int, s3: int)
    ensures Wraps(Deltas([c0, c1, c2, c3], [s0, s1, s2, s3], 0))
            == [Wrap(s0), Wrap(s1 - Wrap(s0 * c0)), Wrap(s2 - Wrap(Wrap(s0 * c0) + s1 * c1)),
                Wrap(s3 - Wrap(Wrap(Wrap(s0 * c0) + s1 * c1) + s2 * c2))]
  {
    Exact4(c0, c1, c2, c3, s0, s1, s2, s3);
    Running(s0 * c0, s1 * c1, s2 * c2, s1, s2, s3);
  }

  /** Keeping the running distance modulo 2^32 does not change the strides. */
  lemma Running(x: int, y: int, z: int, s1: int, s2: int, s3: int)
    ensures Wrap(s1 - Wrap(x)) == Wrap(s1 - x) && Wrap(s2 - Wrap(Wrap(x) + y)) == Wrap(s2 - (x + y))
    ensures Wrap(s3 - Wrap(Wrap(Wrap(x) + y) + z)) == Wrap(s3 - (x + y + z))
  {
    WrapSub(s1, x);
    WrapAdd(x, y);
    WrapSub(s2, x + y);
    WrapAdd(x + y, z);
    WrapSub(s3, x + y + z);
  }

  lemma Exact4(c0: nat, c1: nat, c2: nat, c3: nat, s0: int, s1: int, s2: int, s3: int)
    ensures Deltas([c0, c1, c2, c3], [s0, s1, s2, s3], 0)
            == [s0, s1 - s0 * c0, s2 - (s0 * c0 + s1 * c1), s3 - (s0 * c0 + s1 * c1 + s2 * c2)]
  {
    var a1 := s0 * c0;
    var a2 := a1 + s1 * c1;
    var a3 := a2 + s2 * c2;
    assert [c0, c1, c2, c3][1..] == [c1, c2, c3] && [s0, s1, s2, s3][1..] == [s1, s2, s3];
    assert [c1, c2, c3][1..] == [c2, c3] && [s1, s2, s3][1..] == [s2, s3];
    assert [c2, c3][1..] == [c3] && [s2, s3][1..] == [s3];
    assert Deltas([c3], [s3], a3) == [s3 - a3];
    assert Deltas([c2, c3], [s2, s3], a2) == [s2 - a2, s3 - a3];
    assert Deltas([c1, c2, c3], [s1, s2, s3], a1) == [s1 - a1, s2 - a2, s3 - a3];
  }

  // ----- the loop nest

  function Volume(b: seq<nat>): nat { if b == [] then 1 else b[0] * Volume(b[1..]) }

  /** The loop indices of element t in lexicographic order, innermost first, for trip counts b. */
  function Digits(t: nat, b: seq<nat>): (r: seq<nat>)
    requires forall i :: 0 <= i < |b| ==> b[i] > 0
    ensures |r| == |b|
    decreases |b|
  {
    if b == [] then [] else [Rem(t, b[0])] + Digits(Quot(t, b[0]), b[1..])
  }

  function Dot(idx: seq<nat>, s: seq<int>): int
    requires |idx| == |s|
  {
    if s == [] then 0 else idx[0] * s[0] + Dot(idx[1..], s[1..])
  }

  function Counts(bounds: seq<nat>): (r: seq<nat>)
    ensures |r| == |bounds| && forall i :: 0 <= i < |r| ==> r[i] == bounds[i] + 1
  {
    seq(|bounds|, i requires 0 <= i < |bounds| => bounds[i] + 1)
  }

  /** A carry out of a loop of d iterations leaves room in the v iterations outside. */
  lemma CarryRoom(t: nat, d: nat, v: nat)
    requires d > 0 && t % d == d - 1 && t + 1 < d * v
    ensures t / d + 1 < v
  {
    var q := t / d;
    assert t == q * d + (d - 1);
    MulFar(q + 1 - v, d);
    assert (q + 1 - v) * d == q * d + d - v * d;
  }

  lemma {:induction false} DigitsZero(b: seq<nat>)
    requires forall i :: 0 <= i < |b| ==> b[i] > 0
    ensures forall i :: 0 <= i < |b| ==> Digits(0, b)[i] == 0
  {
    if b == [] {
    } else {
      DivUnique(0, b[0], 0, 0);
      DigitsZero(b[1..]);
    }
  }

  lemma {:induction false} BumpDigits(t: nat, bounds: seq<nat>)
    ensures Bump(Digits(t, Counts(bounds)), bounds) == Digits(t + 1, Counts(bounds))
    decreases |bounds|
  {
    if bounds == [] {
    } else {
      var d := bounds[0] + 1;
      DivStep(t, d);
      assert Counts(bounds)[1..] == Counts(bounds[1..]);
      BumpDigits(Quot(t, d), bounds[1..]);
    }
  }

  lemma {:induction false} IndexIsDigits(t: nat, bounds: seq<nat>)
    ensures Index(bounds, t) == Digits(t, Counts(bounds))
  {
    if t == 0 {
      DigitsZero(Counts(bounds));
    } else {
      IndexIsDigits(t - 1, bounds);
      BumpDigits(t - 1, bounds);
    }
  }

  /** One move of the generator is one move of the nest: what the innermost loops give back is in the encoding. */
  lemma {:induction false} JumpIsMove(t: nat, bounds: seq<nat>, s: seq<int>, a: int)
    requires |bounds| == |s| && t + 1 < Volume(Counts(bounds))
    ensures var idx := Digits(t, Counts(bounds));
            Dot(Bump(idx, bounds), s) == Dot(idx, s) + Jump(idx, bounds, Deltas(bounds, s, a)) + a
    decreases |s|
  {
    if s == [] {
    } else {
      var idx := Digits(t, Counts(bounds));
      var d := bounds[0] + 1;
      assert idx[0] == t % d && idx[1..] == Digits(Quot(t, d), Counts(bounds)[1..]);
      assert Counts(bounds)[1..] == Counts(bounds[1..]);
      if idx[0] < bounds[0] {
        assert Bump(idx, bounds)[1..] == idx[1..];
        assert (idx[0] + 1) * s[0] == idx[0] * s[0] + s[0];
      } else {
        CarryRoom(t, d, Volume(Counts(bounds[1..])));
        JumpIsMove(Quot(t, d), bounds[1..], s[1..], a + s[0] * bounds[0]);
        assert idx[0] == bounds[0] && idx[0] * s[0] == s[0] * bounds[0];
      }
    }
  }

  lemma {:induction false} JumpWraps(idx: seq<nat>, bounds: seq<nat>, s: seq<int>)
    requires |idx| == |bounds| == |s|
    ensures Wrap(Jump(idx, bounds, Wraps(s))) == Wrap(Jump(idx, bounds, s))
  {
    if idx == [] {
    } else {
      assert Wraps(s)[1..] == Wraps(s[1..]);
      if idx[0] < bounds[0] {
        WrapAdd(0, s[0]);
      } else {
        JumpWraps(idx[1..], bounds[1..], s[1..]);
      }
    }
  }

  lemma WrapMove(x: int, j: int, j': int)
    requires Wrap(j) == Wrap(j')
    ensures Wrap(Wrap(x) + j) == Wrap(x + j')
  {
    WrapAdd(x, j);
    WrapAdd(x, j');
  }

  lemma {:induction false} DotZero(idx: seq<nat>, s: seq<int>)
    requires |idx| == |s| && forall i :: 0 <= i < |idx| ==> idx[i] == 0
    ensures Dot(idx, s) == 0
  {
    if s == [] {
    } else {
      DotZero(idx[1..], s[1..]);
    }
  }

  /** For every rank, every trip count from 1 and every stride, negative and zero included: element t of the stream
      that the encoding programs is at base + sum of index * stride, modulo 2^32, in lexicographic order. */
  lemma {:induction false} StreamWalksNest(bounds: seq<nat>, s: seq<int>, base: nat, t: nat)
    requires |bounds| == |s| && t < Volume(Counts(bounds))
    ensures Walk(bounds, Wraps(Deltas(bounds, s, 0)), base, t) == Wrap(base + Dot(Digits(t, Counts(bounds)), s))
  {
    var w := Wraps(Deltas(bounds, s, 0));
    if t == 0 {
      DigitsZero(Counts(bounds));
      DotZero(Digits(0, Counts(bounds)), s);
    } else {
      StreamWalksNest(bounds, s, base, t - 1);
      IndexIsDigits(t - 1, bounds);
      OneElement(bounds, s, base, t - 1);
    }
  }

  /** From one element to the next. */
  lemma OneElement(bounds: seq<nat>, s: seq<int>, base: nat, t: nat)
    requires |bounds| == |s| && t + 1 < Volume(Counts(bounds))
    ensures var idx, w := Digits(t, Counts(bounds)), Wraps(Deltas(bounds, s, 0));
            Wrap(Wrap(base + Dot(idx, s)) + Jump(idx, bounds, w)) == Wrap(base + Dot(Digits(t + 1, Counts(bounds)), s))
  {
    var idx, d := Digits(t, Counts(bounds)), Deltas(bounds, s, 0);
    BumpDigits(t, bounds);
    JumpIsMove(t, bounds, s, 0);
    JumpWraps(idx, bounds, d);
    WrapMove(base + Dot(idx, s), Jump(idx, bounds, Wraps(d)), Jump(idx, bounds, d));
  }

  // ----- where an element of the nest is

  /** The position of an index vector in lexicographic order. */
  function Ordinal(idx: seq<nat>, b: seq<nat>): nat
    requires |idx| == |b|
  {
    if b == [] then 0 else idx[0] + b[0] * Ordinal(idx[1..], b[1..])
  }

  lemma {:induction false} DigitsOrdinal(idx: seq<nat>, b: seq<nat>)
    requires |idx| == |b| && forall i :: 0 <= i < |b| ==> idx[i] < b[i]
    ensures Ordinal(idx, b) < Volume(b)
    ensures Digits(Ordinal(idx, b), b) == idx
  {
    if b == [] {
    } else {
      var q := Ordinal(idx[1..], b[1..]);
      DigitsOrdinal(idx[1..], b[1..]);
      assert q * b[0] == b[0] * q;
      DivUnique(idx[0] + b[0] * q, b[0], q, idx[0]);
      MulFar(Volume(b[1..]) - q, b[0]);
      assert (Volume(b[1..]) - q) * b[0] == b[0] * Volume(b[1..]) - b[0] * q;
    }
  }

  /** A rank-4 stream whatever its registers hold: the fourth stride register x is the encoding of some stride. */
  lemma Encoded4(c0: nat, c1: nat, c2: nat, c3: nat, s0: int, s1: int, s2: int, x: nat)
    requires x < WORD
    ensures Wraps(Deltas([c0, c1, c2, c3], [s0, s1, s2, x + (s0 * c0 + s1 * c1 + s2 * c2)], 0))
            == Wraps(Deltas([c0, c1, c2], [s0, s1, s2], 0)) + [x]
  {
    var s3 := x + (s0 * c0 + s1 * c1 + s2 * c2);
    var d4, d3 := Deltas([c0, c1, c2, c3], [s0, s1, s2, s3], 0), Deltas([c0, c1, c2], [s0, s1, s2], 0);
    assert d4 == d3 + [x] by {
      Exact4(c0, c1, c2, c3, s0, s1, s2, s3);
      Exact3(c0, c1, c2, s0, s1, s2);
    }
    Append(d4, d3, x);
  }

  lemma Append(d4: seq<int>, d3: seq<int>, x: nat)
    requires x < WORD && d4 == d3 + [x]
    ensures Wraps(d4) == Wraps(d3) + [x]
  {
    assert Wrap(x) == x;
  }

  /** Element (i0, i1) of a rank-2 nest. */
  lemma Element2(bound: seq<nat>, stride: seq<nat>, s: seq<int>, base: nat, i0: nat, i1: nat)
    requires |bound| == 2 && |s| == 2 && stride == Wraps(Deltas(bound, s, 0)) && i0 <= bound[0] && i1 <= bound[1]
    ensures Walk(bound, stride, base, i0 + (bound[0] + 1) * i1) == Wrap(base + i0 * s[0] + i1 * s[1])
  {
    var idx, b := [i0, i1], Counts(bound);
    DigitsOrdinal(idx, b);
    assert Ordinal(idx[1..], b[1..]) == i1;
    StreamWalksNest(bound, s, base, Ordinal(idx, b));
    assert Dot(idx[1..], s[1..]) == i1 * s[1];
  }

  /** Element (i0, i1, i2, i3) of a rank-4 nest, for any registers that encode it. */
  lemma Element4(bound: seq<nat>, stride: seq<nat>, s: seq<int>, base: nat, i0: nat, i1: nat, i2: nat, i3: nat)
    requires |bound| == 4 && |s| == 4 && stride == Wraps(Deltas(bound, s, 0))
    requires i0 <= bound[0] && i1 <= bound[1] && i2 <= bound[2] && i3 <= bound[3]
    ensures var t := i0 + (bound[0] + 1) * (i1 + (bound[1] + 1) * (i2 + (bound[2] + 1) * i3));
            Walk(bound, stride, base, t) == Wrap(base + i0 * s[0] + i1 * s[1] + i2 * s[2] + i3 * s[3])
  {
    var idx, b := [i0, i1, i2, i3], Counts(bound);
    DigitsOrdinal(idx, b);
    OrdinalOf4(idx, b);
    StreamWalksNest(bound, s, base, Ordinal(idx, b));
    DotOf4(idx, s);
  }

  lemma OrdinalOf4(idx: seq<nat>, b: seq<nat>)
    requires |idx| == |b| == 4
    ensures Ordinal(idx, b) == idx[0] + b[0] * (idx[1] + b[1] * (idx[2] + b[2] * idx[3]))
  {
    var i1, b1 := idx[1..], b[1..];
    var i2, b2 := i1[1..], b1[1..];
    var i3, b3 := i2[1..], b2[1..];
    assert Ordinal(i3, b3) == idx[3];
    assert Ordinal(i2, b2) == idx[2] + b[2] * idx[3];
    assert Ordinal(i1, b1) == idx[1] + b[1] * (idx[2] + b[2] * idx[3]);
  }

  lemma DotOf4(idx: seq<nat>, s: seq<int>)
    requires |idx| == |s| == 4
    ensures Dot(idx, s) == idx[0] * s[0] + idx[1] * s[1] + idx[2] * s[2] + idx[3] * s[3]
  {
    var i1, s1 := idx[1..], s[1..];
    var i2, s2 := i1[1..], s1[1..];
    var i3, s3 := i2[1..], s2[1..];
    assert Dot(i3, s3) == idx[3] * s[3];
    assert Dot(i2, s2) == idx[2] * s[2] + idx[3] * s[3];
    assert Dot(i1, s1) == idx[1] * s[1] + (idx[2] * s[2] + idx[3] * s[3]);
  }
}
