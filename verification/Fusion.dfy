/** Concatenation and linear layer in one: two clusters each multiply their own input with their rows of the weights, and
    the partial results are reduced. Arithmetic is exact. The cores take equal numbers of rows, and equal numbers of elements
    of the reduction; what does not divide is left over. */
module Fusion {
  import opened MatMul
  import opened TiledGemm
  import GemmEntries
  import ReductionTree
  import opened Arithmetic

  lemma ExactOne()
    ensures IsOne(EXACT, 1.0)
  {}

  // ----- what is to be computed

  /** cat has the rows of a0 and a1 side by side. */
  ghost predicate Joined<T>(cat: seq<T>, a0: seq<T>, a1: seq<T>, m: nat, k: nat) {
    && |cat| == m * (2 * k) && |a0| == |a1| == m * k
    && forall i: nat, x: nat :: i < m && x < k ==> JoinedAt(cat, a0, a1, m, k, i, x)
  }

  ghost predicate JoinedAt<T>(cat: seq<T>, a0: seq<T>, a1: seq<T>, m: nat, k: nat, i: nat, x: nat)
    requires |cat| == m * (2 * k) && |a0| == |a1| == m * k && i < m && x < k
  {
    PairBound(i, x, m, k);
    PairBound(i, x, m, 2 * k);
    PairBound(i, k + x, m, 2 * k);
    cat[i * (2 * k) + x] == a0[i * k + x] && cat[i * (2 * k) + (k + x)] == a1[i * k + x]
  }

  /** w0 and w1 are the upper and the lower half of w. */
  ghost predicate Halves(w: seq<real>, w0: seq<real>, w1: seq<real>, k: nat, n: nat) {
    && |w| == (2 * k) * n && |w0| == |w1| == k * n
    && forall x: nat, j: nat :: x < k && j < n ==> HalvesAt(w, w0, w1, k, n, x, j)
  }

  ghost predicate HalvesAt(w: seq<real>, w0: seq<real>, w1: seq<real>, k: nat, n: nat, x: nat, j: nat)
    requires |w| == (2 * k) * n && |w0| == |w1| == k * n && x < k && j < n
  {
    PairBound(x, j, k, n);
    PairBound(x, j, 2 * k, n);
    PairBound(k + x, j, 2 * k, n);
    w0[x * n + j] == w[x * n + j] && w1[x * n + j] == w[(k + x) * n + j]
  }

  // ----- splitting the inner product

  lemma {:induction false} FirstHalf(cat: seq<real>, w: seq<real>, a0: seq<real>, a1: seq<real>, w0: seq<real>, w1: seq<real>,
                                     m: nat, k: nat, n: nat, i: nat, j: nat, x: nat)
    requires Joined(cat, a0, a1, m, k) && Halves(w, w0, w1, k, n) && i < m && j < n && x <= k
    ensures Plain(EXACT, cat, w, m, 2 * k, n, i, j, 0.0, x) == Plain(EXACT, a0, w0, m, k, n, i, j, 0.0, x)
  {
    if x == 0 {
    } else {
      FirstHalf(cat, w, a0, a1, w0, w1, m, k, n, i, j, x - 1);
      assert JoinedAt(cat, a0, a1, m, k, i, x - 1);
      assert HalvesAt(w, w0, w1, k, n, x - 1, j);
    }
  }

  lemma {:induction false} SecondHalf(cat: seq<real>, w: seq<real>, a0: seq<real>, a1: seq<real>, w0: seq<real>, w1: seq<real>,
                                      m: nat, k: nat, n: nat, i: nat, j: nat, x: nat)
    requires Joined(cat, a0, a1, m, k) && Halves(w, w0, w1, k, n) && i < m && j < n && x <= k
    ensures Plain(EXACT, cat, w, m, 2 * k, n, i, j, 0.0, k + x)
            == Plain(EXACT, cat, w, m, 2 * k, n, i, j, 0.0, k) + Plain(EXACT, a1, w1, m, k, n, i, j, 0.0, x)
  {
    if x == 0 {
    } else {
      var y := x - 1;
      SecondHalf(cat, w, a0, a1, w0, w1, m, k, n, i, j, y);
      var u, v := SecondOperands(cat, w, a0, a1, w0, w1, m, k, n, i, j, y);
      PlainNext(cat, w, m, 2 * k, n, i, j, k + y, u, v);
      PlainNext(a1, w1, m, k, n, i, j, y, u, v);
      MacShift(u, v, Plain(EXACT, cat, w, m, 2 * k, n, i, j, 0.0, k), Plain(EXACT, a1, w1, m, k, n, i, j, 0.0, y));
    }
  }

  lemma SecondOperands(cat: seq<real>, w: seq<real>, a0: seq<real>, a1: seq<real>, w0: seq<real>, w1: seq<real>,
                       m: nat, k: nat, n: nat, i: nat, j: nat, y: nat)
      returns (u: real, v: real)
    requires Joined(cat, a0, a1, m, k) && Halves(w, w0, w1, k, n) && i < m && j < n && y < k
    ensures At(cat, i, 2 * k, k + y, u) && At(w, k + y, n, j, v) && At(a1, i, k, y, u) && At(w1, y, n, j, v)
  {
    assert JoinedAt(cat, a0, a1, m, k, i, y);
    assert HalvesAt(w, w0, w1, k, n, y, j);
    PairBound(i, y, m, k);
    PairBound(y, j, k, n);
    PairBound(i, k + y, m, 2 * k);
    PairBound(k + y, j, 2 * k, n);
    u, v := a1[i * k + y], w1[y * n + j];
  }

  /** Row r, column q of a matrix with `cols` columns holds x. */
  ghost predicate At(s: seq<real>, r: nat, cols: nat, q: nat, x: real) {
    r * cols + q < |s| && s[r * cols + q] == x
  }

  lemma {:induction false} PlainNext(a: seq<real>, b: seq<real>, M: nat, K: nat, N: nat, i: nat, j: nat, x: nat, u: real, v: real)
    requires |a| == M * K && |b| == K * N && i < M && j < N && x < K
    requires At(a, i, K, x, u) && At(b, x, N, j, v)
    ensures Plain(EXACT, a, b, M, K, N, i, j, 0.0, x + 1) == EXACT.mac(u, v, Plain(EXACT, a, b, M, K, N, i, j, 0.0, x))
  {}

  lemma MacShift(a: real, b: real, s: real, p: real)
    ensures EXACT.mac(a, b, s + p) == s + EXACT.mac(a, b, p)
  {}

  /** The sum of two partial products is the product of the concatenation. */
  lemma PartsAreProduct(cat: seq<real>, w: seq<real>, a0: seq<real>, a1: seq<real>, w0: seq<real>, w1: seq<real>,
                        m: nat, k: nat, n: nat, i: nat, j: nat)
    requires Joined(cat, a0, a1, m, k) && Halves(w, w0, w1, k, n) && i < m && j < n
    ensures Plain(EXACT, a0, w0, m, k, n, i, j, 0.0, k) + Plain(EXACT, a1, w1, m, k, n, i, j, 0.0, k)
            == Plain(EXACT, cat, w, m, 2 * k, n, i, j, 0.0, 2 * k)
  {
    FirstHalf(cat, w, a0, a1, w0, w1, m, k, n, i, j, k);
    SecondHalf(cat, w, a0, a1, w0, w1, m, k, n, i, j, k);
    assert k + k == 2 * k;
  }

  // ----- what the fused path leaves

  /** The rows that the cores take. */
  function Rows(m: nat, cores: nat): nat
    requires cores > 0
  {
    Quot(m, cores) * cores
  }

  /** Entry (i, j), whatever m, n, k and the number of cores: in the cores' rows the product where the reduction reaches, and
      the second half of it elsewhere; in the other rows the old output, or zero. */
  ghost function FusedValue(cat: seq<real>, w: seq<real>, out: seq<real>, m: nat, n: nat, k: nat, cores: nat, i: nat, j: nat): real
    requires |cat| == m * (2 * k) && |w| == (2 * k) * n && |out| == m * n && i < m && j < n && cores > 0
  {
    PairBound(i, j, m, n);
    var whole, first := Plain(EXACT, cat, w, m, 2 * k, n, i, j, 0.0, 2 * k), Plain(EXACT, cat, w, m, 2 * k, n, i, j, 0.0, k);
    var reached := i * n + j < ReductionTree.Covered(m * n, cores);
    if i < Rows(m, cores) then (if reached then whole else whole - first) else (if reached then out[i * n + j] else 0.0)
  }

  ghost predicate FusedEntry(r: seq<real>, cat: seq<real>, w: seq<real>, out: seq<real>, m: nat, n: nat, k: nat, cores: nat, i: nat, j: nat)
    requires |cat| == m * (2 * k) && |w| == (2 * k) * n && |r| == |out| == m * n && i < m && j < n && cores > 0
  {
    PairBound(i, j, m, n);
    r[i * n + j] == FusedValue(cat, w, out, m, n, k, cores, i, j)
  }

  ghost predicate IsFused(r: seq<real>, cat: seq<real>, w: seq<real>, out: seq<real>, m: nat, n: nat, k: nat, cores: nat)
    requires |cat| == m * (2 * k) && |w| == (2 * k) * n && |r| == |out| == m * n && cores > 0
  {
    forall i: nat, j: nat :: i < m && j < n ==> FusedEntry(r, cat, w, out, m, n, k, cores, i, j)
  }

  /** A single tile: the cores' rows hold the partial product, the others what was there. */
  ghost predicate IsPart(c: seq<real>, a: seq<real>, w: seq<real>, z: seq<real>, beta: real, m: nat, n: nat, k: nat, cores: nat)
    requires |c| == |z| == m * n && |a| == m * k && |w| == k * n && cores > 0
  {
    forall i: nat, j: nat :: i < m && j < n ==>
      if i < Rows(m, cores) then ProductEntry(EXACT, c, a, w, z, beta, m, n, k, i, j) else OldEntry(c, z, m, n, i, j)
  }

  lemma ReducedEntry(r: seq<real>, c0: seq<real>, c1: seq<real>, z1: seq<real>, out: seq<real>, cat: seq<real>, w: seq<real>,
                     a0: seq<real>, a1: seq<real>, w0: seq<real>, w1: seq<real>, m: nat, n: nat, k: nat, cores: nat, i: nat, j: nat)
    requires Joined(cat, a0, a1, m, k) && Halves(w, w0, w1, k, n) && |out| == |z1| == m * n && cores > 0 && i < m && j < n
    requires |r| == |c0| == |c1| == m * n && Reduced(r, c0, c1, cores)
    requires IsPart(c0, a0, w0, out, 0.0, m, n, k, cores)
    requires IsPart(c1, a1, w1, z1, 1.0, m, n, k, cores) && forall p :: 0 <= p < m * n ==> z1[p] == 0.0
    ensures FusedEntry(r, cat, w, out, m, n, k, cores, i, j)
  {
    PairBound(i, j, m, n);
    ReducedAt(r, c0, c1, cores, i * n + j);
    if i < Rows(m, cores) {
      PartAt(c0, a0, w0, out, 0.0, m, n, k, i, j);
      PartAt(c1, a1, w1, z1, 1.0, m, n, k, i, j);
      FirstHalf(cat, w, a0, a1, w0, w1, m, k, n, i, j, k);
      PartsAreProduct(cat, w, a0, a1, w0, w1, m, k, n, i, j);
    } else {
      assert OldEntry(c0, out, m, n, i, j) && OldEntry(c1, z1, m, n, i, j);
    }
  }

  lemma ReducedAt(r: seq<real>, c0: seq<real>, c1: seq<real>, cores: nat, p: nat)
    requires |r| == |c0| == |c1| && cores > 0 && Reduced(r, c0, c1, cores) && p < |r|
    ensures r[p] == if p < ReductionTree.Covered(|r|, cores) then c1[p] + c0[p] else c1[p]
  {}

  /** A product scaled by zero, or started from zero. */
  lemma PartAt(c: seq<real>, a: seq<real>, w: seq<real>, z: seq<real>, beta: real, m: nat, n: nat, k: nat, i: nat, j: nat)
    requires |c| == |z| == m * n && |a| == m * k && |w| == k * n && i < m && j < n && i * n + j < m * n
    requires ProductEntry(EXACT, c, a, w, z, beta, m, n, k, i, j) && (beta == 0.0 || (beta == 1.0 && z[i * n + j] == 0.0))
    ensures c[i * n + j] == Plain(EXACT, a, w, m, k, n, i, j, 0.0, k)
  {
    assert Start(EXACT, Times(beta), z[i * n + j]) == 0.0;
  }

  /** What the reduction over two clusters leaves in cluster 0. */
  ghost predicate Reduced(r: seq<real>, c0: seq<real>, c1: seq<real>, cores: nat)
    requires |r| == |c0| == |c1| && cores > 0
  {
    forall p :: 0 <= p < |r| ==> r[p] == if p < ReductionTree.Covered(|r|, cores) then c1[p] + c0[p] else c1[p]
  }

  // ----- the fused path

  lemma CellsFit(base: nat, rows: nat, cols: nat, size: nat)
    requires base + rows * cols <= size
    ensures InjectiveTo(Cells(base, cols), rows, cols, size)
  {
    RowMajor(base, rows, cols, Cells(base, cols), size);
  }

  /** The rows of the weights that belong to a cluster (load_b in gemm, with the cluster index as the k tile): k rows from
      element `base` on. */
  method LoadHalf(w: array<real>, base: nat, k: nat, n: nat) returns (t: array<real>)
    requires base + k * n <= w.Length
    ensures fresh(t) && t.Length == k * n
    ensures forall p :: 0 <= p < k * n ==> t[p] == w[base + p]
  {
    t := new real[k * n](_ => 0.0);
    CellsFit(0, k, n, t.Length);
    CellsFit(base, k, n, w.Length);
    CopyTile(t, w, k, n, Cells(0, n), Cells(base, n));
    forall p | 0 <= p < k * n
      ensures t[p] == w[base + p]
    {
      var x, j := TileOf(k, n, p);
      assert Cells(0, n)(x, j) == p && Cells(base, n)(x, j) == base + p;
    }
  }

  lemma HalvesJoin(w: seq<real>, w0: seq<real>, w1: seq<real>, k: nat, n: nat)
    requires |w| == (2 * k) * n && |w0| == |w1| == k * n
    requires forall p :: 0 <= p < k * n ==> w0[p] == w[p] && w1[p] == w[k * n + p]
    ensures Halves(w, w0, w1, k, n)
  {
    forall x: nat, j: nat | x < k && j < n
      ensures HalvesAt(w, w0, w1, k, n, x, j)
    {
      PairBound(x, j, k, n);
      assert (k + x) * n == k * n + x * n;
    }
  }

  /** The partial product of one cluster: a single tile, its rows shared by the cores (gemm with one m, n and k tile). */
  method Partial(mem: array<real>, a: array<real>, w: array<real>, c: array<real>, m: nat, n: nat, k: nat, cores: nat, beta: real)
    requires a.Length == m * k && w.Length == k * n && c.Length == m * n && c != a && c != w
    requires cores > 0 && mem != a && mem != w && mem != c && m * k + k * n + m * n <= mem.Length
    modifies mem, c
    ensures IsPart(c[..], a[..], w[..], old(c[..]), beta, m, n, k, cores)
  {
    ExactOne();
    OneTileFits(mem.Length, m, n, k);
    ghost var z := c[..];
    Multiply(EXACT, [mem], a, w, c, m, n, k, 1, 1, 1, cores, 0, [0], beta, 1.0);
    TiledIsPart(c[..], a[..], w[..], z, beta, m, n, k, cores);
  }

  lemma Ones(x: nat)
    ensures Quot(x, 1) == x
  {}

  lemma OneTileFits(size: nat, m: nat, n: nat, k: nat)
    requires m * k + k * n + m * n <= size
    ensures Fits(size, m, n, k, 1, 1, 1, 0)
  {
    Ones(m);
    Ones(n);
    Ones(k);
  }

  lemma TiledIsPart(c: seq<real>, a: seq<real>, w: seq<real>, z: seq<real>, beta: real, m: nat, n: nat, k: nat, cores: nat)
    requires |c| == |z| == m * n && |a| == m * k && |w| == k * n && cores > 0
    requires IsTiled(EXACT, c, a, w, z, beta, m, n, k, TilingOf(m, n, k, 1, 1, 1, cores, 1))
    ensures IsPart(c, a, w, z, beta, m, n, k, cores)
  {
    var t := TilingOf(m, n, k, 1, 1, 1, cores, 1);
    Ones(m);
    Ones(n);
    Ones(k);
    Ones(1);
    assert t == Tiling(1, 1, 1, m, n, k, Rows(m, cores));
    forall i: nat, j: nat | i < m && j < n
      ensures if i < Rows(m, cores) then ProductEntry(EXACT, c, a, w, z, beta, m, n, k, i, j) else OldEntry(c, z, m, n, i, j)
    {
      WorkedIs(t, 0, i);
    }
  }

  /** One cluster: its input is in place, its rows of the weights are loaded, and the partial result starts from z. */
  method ClusterPart(mem: array<real>, a: array<real>, w: array<real>, base: nat, z: seq<real>, beta: real, m: nat, n: nat, k: nat, cores: nat)
      returns (c: seq<real>, ghost half: seq<real>)
    requires a.Length == m * k && base + k * n <= w.Length && |z| == m * n
    requires cores > 0 && mem != a && mem != w && m * k + k * n + m * n <= mem.Length
    modifies mem
    ensures |c| == m * n && |half| == k * n && forall p :: 0 <= p < k * n ==> half[p] == w[base + p]
    ensures IsPart(c, a[..], half, z, beta, m, n, k, cores)
  {
    var t := LoadHalf(w, base, k, n);
    half := t[..];
    var tile := new real[m * n](p requires 0 <= p < m * n => z[p]);
    assert tile[..] == z;
    Partial(mem, a, t, tile, m, n, k, cores, beta);
    c := tile[..];
  }

  /** The fused layer on two clusters with two inputs (lines 56 to 79): cluster 0 loads the output tile and scales it by
      zero, cluster 1 starts from zeros and keeps them; cluster 0 stores what the reduction leaves. */
  method Fused(mem0: array<real>, mem1: array<real>, a0: array<real>, a1: array<real>, w: array<real>, out: array<real>,
               m: nat, n: nat, k: nat, cores: nat, dst: seq<seq<real>>, ghost cat: seq<real>)
    requires a0.Length == a1.Length == m * k && w.Length == (2 * k) * n && out.Length == m * n && Joined(cat, a0[..], a1[..], m, k)
    requires cores > 0 && m * k + k * n + m * n <= mem0.Length && mem0.Length == mem1.Length
    requires mem0 !in {a0, a1, w, out} && mem1 !in {a0, a1, w, out} && out !in {a0, a1, w}
    requires ReductionTree.Shaped(dst, 2, m * n)
    modifies mem0, mem1, out
    ensures IsFused(out[..], cat, w[..], old(out[..]), m, n, k, cores)
  {
    var zeros := seq(m * n, _ => 0.0);
    assert (2 * k) * n == k * n + k * n;
    var c0, w0 := ClusterPart(mem0, a0, w, 0, out[..], 0.0, m, n, k, cores);
    var c1, w1 := ClusterPart(mem1, a1, w, k * n, zeros, 1.0, m, n, k, cores);
    HalvesJoin(w[..], w0, w1, k, n);
    var r := ReductionTree.Reduce([c0, c1], dst, cores, m * n);
    Root(r[0], c0, c1, cores, m * n);
    ghost var o, ww := out[..], w[..];
    PartsReduced(r[0], c0, c1, zeros, o, cat, ww, a0[..], a1[..], w0, w1, m, n, k, cores);
    StoreTile(out, r[0]);
    assert w[..] == ww;
  }

  lemma PartsReduced(r: seq<real>, c0: seq<real>, c1: seq<real>, z1: seq<real>, out: seq<real>, cat: seq<real>, w: seq<real>,
                     a0: seq<real>, a1: seq<real>, w0: seq<real>, w1: seq<real>, m: nat, n: nat, k: nat, cores: nat)
    requires Joined(cat, a0, a1, m, k) && Halves(w, w0, w1, k, n) && |out| == |z1| == m * n && cores > 0
    requires |r| == |c0| == |c1| == m * n && Reduced(r, c0, c1, cores)
    requires IsPart(c0, a0, w0, out, 0.0, m, n, k, cores)
    requires IsPart(c1, a1, w1, z1, 1.0, m, n, k, cores) && forall p :: 0 <= p < m * n ==> z1[p] == 0.0
    ensures IsFused(r, cat, w, out, m, n, k, cores)
  {
    forall i: nat, j: nat | i < m && j < n
      ensures FusedEntry(r, cat, w, out, m, n, k, cores, i, j)
    {
      ReducedEntry(r, c0, c1, z1, out, cat, w, a0, a1, w0, w1, m, n, k, cores, i, j);
    }
  }

  method StoreTile(out: array<real>, r: seq<real>)
    requires out.Length == |r|
    modifies out
    ensures out[..] == r
  {
    forall p | 0 <= p < |r| { out[p] := r[p]; }
  }

  lemma Root(d: seq<real>, c0: seq<real>, c1: seq<real>, cores: nat, len: nat)
    requires cores > 0 && |c0| == |c1| == len
    requires ReductionTree.Levels(2) > 0 && Pow2(ReductionTree.Levels(2) - 1) < 2
    requires ReductionTree.RootHolds([c0, c1], d, Pow2(ReductionTree.Levels(2) - 1), cores, len)
    ensures |d| == len && Reduced(d, c0, c1, cores)
  {}

  // ----- when that is the product

  lemma RowsAll(m: nat, cores: nat)
    requires cores > 0
    ensures Rows(m, cores) <= m && (Rows(m, cores) == m <==> m % cores == 0)
  {
    assert m == Quot(m, cores) * cores + Rem(m, cores);
  }

  /** Cores that divide m divide m * n. */
  lemma ReachAll(m: nat, n: nat, cores: nat)
    requires cores > 0 && m % cores == 0
    ensures ReductionTree.Covered(m * n, cores) == m * n
  {
    assert (m * n) % cores == 0 by {
      assert m == (m / cores) * cores;
      assert m * n == (m / cores * n) * cores by { assert (m / cores) * cores * n == (m / cores * n) * cores; }
      ReductionTree.Multiple(m / cores * n, cores);
    }
    ReductionTree.CoveredFits(m * n, cores);
  }

  lemma FusedIsProduct(r: seq<real>, cat: seq<real>, w: seq<real>, out: seq<real>, m: nat, n: nat, k: nat, cores: nat)
    requires |cat| == m * (2 * k) && |w| == (2 * k) * n && |r| == |out| == m * n && cores > 0 && m % cores == 0
    requires IsFused(r, cat, w, out, m, n, k, cores)
    ensures IsProduct(EXACT, r, cat, w, out, 0.0, m, n, 2 * k)
  {
    RowsAll(m, cores);
    ReachAll(m, n, cores);
    forall i: nat, j: nat | i < m && j < n
      ensures ProductEntry(EXACT, r, cat, w, out, 0.0, m, n, 2 * k, i, j)
    {
      PairBound(i, j, m, n);
      assert FusedEntry(r, cat, w, out, m, n, k, cores, i, j);
    }
  }

  /** What the fused path leaves is the product of the concatenation, for all inputs and old outputs. */
  ghost predicate FusedRight(m: nat, n: nat, k: nat, cores: nat)
    requires cores > 0
  {
    forall r: seq<real>, cat: seq<real>, w: seq<real>, out: seq<real> ::
      |cat| == m * (2 * k) && |w| == (2 * k) * n && |r| == |out| == m * n && IsFused(r, cat, w, out, m, n, k, cores) ==>
        IsProduct(EXACT, r, cat, w, out, 0.0, m, n, 2 * k)
  }

  /** The output of the fused path, as a sequence. */
  ghost function FusedOutput(cat: seq<real>, w: seq<real>, out: seq<real>, m: nat, n: nat, k: nat, cores: nat): (r: seq<real>)
    requires |cat| == m * (2 * k) && |w| == (2 * k) * n && |out| == m * n && cores > 0
    ensures |r| == m * n && IsFused(r, cat, w, out, m, n, k, cores)
  {
    var r := seq(m * n, p requires 0 <= p < m * n => FusedAt(cat, w, out, m, n, k, cores, p));
    assert IsFused(r, cat, w, out, m, n, k, cores) by {
      forall i: nat, j: nat | i < m && j < n ensures FusedEntry(r, cat, w, out, m, n, k, cores, i, j) {
        PairBound(i, j, m, n);
        DivUnique(i * n + j, n, i, j);
        assert r[i * n + j] == FusedAt(cat, w, out, m, n, k, cores, i * n + j);
      }
    }
    r
  }

  ghost function FusedAt(cat: seq<real>, w: seq<real>, out: seq<real>, m: nat, n: nat, k: nat, cores: nat, p: nat): real
    requires |cat| == m * (2 * k) && |w| == (2 * k) * n && |out| == m * n && cores > 0 && p < m * n
  {
    Split(m, n, p);
    FusedValue(cat, w, out, m, n, k, cores, Quot(p, n), Rem(p, n))
  }

  lemma Split(m: nat, n: nat, p: nat)
    requires p < m * n
    ensures n > 0 && Quot(p, n) < m && Rem(p, n) < n
  {
    var q := Quot(p, n);
    MulFar(q - m, n);
    assert (q - m) * n == q * n - m * n;
  }

  function Fill(len: nat, x: real): (s: seq<real>)
    ensures |s| == len && forall i :: 0 <= i < len ==> s[i] == x
  {
    seq(len, _ => x)
  }

  /** Matrices of one value x everywhere. */
  lemma {:induction false} PlainFill(a: seq<real>, b: seq<real>, M: nat, K: nat, N: nat, i: nat, j: nat, x: real, y: nat)
    requires a == Fill(M * K, x) && b == Fill(K * N, x) && i < M && j < N && y <= K && (x == 0.0 || x == 1.0)
    ensures Plain(EXACT, a, b, M, K, N, i, j, 0.0, y) == if x == 0.0 then 0.0 else y as real
  {
    if y == 0 {
    } else {
      PlainFill(a, b, M, K, N, i, j, x, y - 1);
      PairBound(i, y - 1, M, K);
      PairBound(y - 1, j, K, N);
      PlainNext(a, b, M, K, N, i, j, y - 1, x, x);
    }
  }

  /** The fused output is the product for all inputs if and only if the cores divide the rows. */
  lemma FusedExactly(m: nat, n: nat, k: nat, cores: nat)
    requires cores > 0 && n > 0 && k > 0
    ensures FusedRight(m, n, k, cores) <==> m % cores == 0
  {
    if m % cores == 0 {
      forall r: seq<real>, cat: seq<real>, w: seq<real>, out: seq<real>
        | |cat| == m * (2 * k) && |w| == (2 * k) * n && |r| == |out| == m * n && IsFused(r, cat, w, out, m, n, k, cores)
        ensures IsProduct(EXACT, r, cat, w, out, 0.0, m, n, 2 * k)
      {
        FusedIsProduct(r, cat, w, out, m, n, k, cores);
      }
    } else {
      RowsAll(m, cores);
      FusedFails(m, n, k, cores, m - 1, 0);
    }
  }

  /** An entry in a row that no core takes: the old output shows through, or the product is missing. */
  lemma FusedFails(m: nat, n: nat, k: nat, cores: nat, i: nat, j: nat)
    requires cores > 0 && k > 0 && Rows(m, cores) <= i < m && j < n
    ensures !FusedRight(m, n, k, cores)
  {
    PairBound(i, j, m, n);
    var reached := i * n + j < ReductionTree.Covered(m * n, cores);
    var x := if reached then 0.0 else 1.0;
    var cat, w, out := Fill(m * (2 * k), x), Fill((2 * k) * n, x), Fill(m * n, 1.0);
    var r := FusedOutput(cat, w, out, m, n, k, cores);
    assert FusedEntry(r, cat, w, out, m, n, k, cores, i, j);
    PlainFill(cat, w, m, 2 * k, n, i, j, x, 2 * k);
    assert Start(EXACT, Times(0.0), 1.0) == 0.0;
    assert !ProductEntry(EXACT, r, cat, w, out, 0.0, m, n, 2 * k, i, j);
    assert !IsProduct(EXACT, r, cat, w, out, 0.0, m, n, 2 * k);
  }

  /** One row and two columns on two cores: nobody computes the row, although the cores divide the two elements. */
  lemma FusedCanFail(k: nat)
    requires k > 0
    ensures (1 * 2) % 2 == 0 && !FusedRight(1, 2, k, 2)
  {
    FusedExactly(1, 2, k, 2);
  }

  // ----- the unfused layers

  /** Where row i, column x of input `part` goes in the concatenated rows. */
  function Slot(part: nat, k: nat, i: nat, x: nat): nat { i * (2 * k) + (part * k + x) }

  lemma SlotUnique(part: nat, k: nat, m: nat, i: nat, x: nat, i': nat, x': nat, part': nat)
    requires part < 2 && part' < 2 && i < m && x < k && x' < k
    ensures Slot(part, k, i, x) < m * (2 * k)
    ensures Slot(part, k, i, x) == Slot(part', k, i', x') ==> i == i' && part * k + x == part' * k + x'
  {
    InPair(part, k, x);
    InPair(part', k, x');
    PairBound(i, part * k + x, m, 2 * k);
    if Slot(part, k, i, x) == Slot(part', k, i', x') {
      PairUnique(2 * k, i, part * k + x, i', part' * k + x');
    }
  }

  lemma InPair(part: nat, k: nat, x: nat)
    requires part < 2 && x < k
    ensures part * k + x < 2 * k
  {
    assert part == 0 || part == 1;
    assert 0 * k == 0 && 1 * k == k;
  }

  /** One cluster stores one input as a column block of the concatenation (lines 41 to 56 of concat.h). */
  method StoreInput(cat: array<real>, a: array<real>, part: nat, ghost other: nat, m: nat, k: nat)
    requires cat.Length == m * (2 * k) && a.Length == m * k && cat != a && part + other == 1
    modifies cat
    ensures forall i: nat, x: nat :: i < m && x < k ==> Stored(cat[..], a[..], part, m, k, i, x)
    ensures forall i: nat, x: nat :: i < m && x < k ==> Kept(cat[..], old(cat[..]), other, m, k, i, x)
  {
    var d, s := (i: nat, x: nat) => Slot(part, k, i, x), Cells(0, k);
    InputSlots(part, k, m, d);
    CellsFit(0, m, k, a.Length);
    CopyInput(cat, a, part, other, m, k, d, s);
  }

  method CopyInput(cat: array<real>, a: array<real>, ghost part: nat, ghost other: nat, m: nat, k: nat, d: (nat, nat) -> nat, s: (nat, nat) -> nat)
    requires cat.Length == m * (2 * k) && a.Length == m * k && cat != a && part + other == 1
    requires InjectiveTo(d, m, k, cat.Length) && InjectiveTo(s, m, k, a.Length)
    requires (forall i: nat, x: nat :: d(i, x) == Slot(part, k, i, x)) && forall i: nat, x: nat :: s(i, x) == 0 + (i * k + x)
    modifies cat
    ensures forall i: nat, x: nat :: i < m && x < k ==> Stored(cat[..], a[..], part, m, k, i, x)
    ensures forall i: nat, x: nat :: i < m && x < k ==> Kept(cat[..], old(cat[..]), other, m, k, i, x)
  {
    CopyTile(cat, a, m, k, d, s);
    forall i: nat, x: nat | i < m && x < k
      ensures Stored(cat[..], a[..], part, m, k, i, x)
    {
      assert cat[d(i, x)] == a[s(i, x)];
      StoredIs(cat[..], a[..], part, m, k, i, x, d(i, x), s(i, x));
    }
    forall i: nat, x: nat | i < m && x < k
      ensures Kept(cat[..], old(cat[..]), other, m, k, i, x)
    {
      OtherSlot(part, k, m, d, i, x);
      assert other == 1 - part;
    }
  }

  lemma StoredIs(cat: seq<real>, a: seq<real>, part: nat, m: nat, k: nat, i: nat, x: nat, d: nat, s: nat)
    requires |cat| == m * (2 * k) && |a| == m * k && part < 2 && i < m && x < k
    requires d == Slot(part, k, i, x) && s == i * k + x && d < |cat| && s < |a| && cat[d] == a[s]
    ensures Stored(cat, a, part, m, k, i, x)
  {}

  lemma InputSlots(part: nat, k: nat, m: nat, d: (nat, nat) -> nat)
    requires part < 2 && forall i: nat, x: nat :: d(i, x) == Slot(part, k, i, x)
    ensures InjectiveTo(d, m, k, m * (2 * k))
  {
    forall i: nat, x: nat, i': nat, x': nat | i < m && x < k && i' < m && x' < k
      ensures d(i, x) < m * (2 * k) && (d(i, x) == d(i', x') ==> i == i' && x == x')
    {
      SlotUnique(part, k, m, i, x, i', x', part);
    }
  }

  lemma OtherSlot(part: nat, k: nat, m: nat, d: (nat, nat) -> nat, i: nat, x: nat)
    requires part < 2 && i < m && x < k && forall i: nat, x: nat :: d(i, x) == Slot(part, k, i, x)
    ensures Slot(1 - part, k, i, x) < m * (2 * k) && Missed(d, m, k, Slot(1 - part, k, i, x))
  {
    SlotUnique(1 - part, k, m, i, x, i, x, 1 - part);
    forall i': nat, x': nat | i' < m && x' < k
      ensures d(i', x') != Slot(1 - part, k, i, x)
    {
      SlotUnique(part, k, m, i', x', i, x, 1 - part);
    }
  }

  ghost predicate Stored(cat: seq<real>, a: seq<real>, part: nat, m: nat, k: nat, i: nat, x: nat)
    requires |cat| == m * (2 * k) && |a| == m * k && part < 2 && i < m && x < k
  {
    PairBound(i, x, m, k);
    PairBound(i, part * k + x, m, 2 * k);
    cat[Slot(part, k, i, x)] == a[i * k + x]
  }

  ghost predicate Kept(cat: seq<real>, was: seq<real>, part: nat, m: nat, k: nat, i: nat, x: nat)
    requires |cat| == |was| == m * (2 * k) && part < 2 && i < m && x < k
  {
    PairBound(i, part * k + x, m, 2 * k);
    cat[Slot(part, k, i, x)] == was[Slot(part, k, i, x)]
  }

  method Concat(cat: array<real>, a0: array<real>, a1: array<real>, m: nat, k: nat)
    requires cat.Length == m * (2 * k) && a0.Length == a1.Length == m * k && cat != a0 && cat != a1
    modifies cat
    ensures Joined(cat[..], a0[..], a1[..], m, k)
  {
    StoreInput(cat, a0, 0, 1, m, k);
    ghost var first := cat[..];
    StoreInput(cat, a1, 1, 0, m, k);
    forall i: nat, x: nat | i < m && x < k
      ensures JoinedAt(cat[..], a0[..], a1[..], m, k, i, x)
    {
      assert Stored(first, a0[..], 0, m, k, i, x);
      assert Kept(cat[..], first, 0, m, k, i, x) && Stored(cat[..], a1[..], 1, m, k, i, x);
      Slots(k, i, x);
    }
  }

  lemma Slots(k: nat, i: nat, x: nat)
    ensures Slot(0, k, i, x) == i * (2 * k) + x && Slot(1, k, i, x) == i * (2 * k) + (k + x)
  {}

  /** Concatenation, then the linear layer with one m tile for each of two clusters (lines 34 to 54): in each half of the
      rows the cores' share holds the product; everything else is as it was. */
  method Baseline(mem0: array<real>, mem1: array<real>, a0: array<real>, a1: array<real>, cat: array<real>, w: array<real>, out: array<real>,
                  m: nat, n: nat, k: nat, cores: nat)
    requires a0.Length == a1.Length == m * k && w.Length == (2 * k) * n && out.Length == m * n && cat.Length == m * (2 * k)
    requires cores > 0 && Fits(mem0.Length, m, n, 2 * k, 2, 1, 1, 0) && mem0.Length == mem1.Length
    requires mem0 !in {w, out, cat} && mem1 !in {w, out, cat} && out !in {w, cat} && cat !in {a0, a1, w}
    modifies mem0, mem1, cat, out
    ensures Joined(cat[..], old(a0[..]), old(a1[..]), m, k)
    ensures IsTiled(EXACT, out[..], cat[..], w[..], old(out[..]), 0.0, m, n, 2 * k, TilingOf(m, n, 2 * k, 2, 1, 1, cores, 2))
  {
    Concat(cat, a0, a1, m, k);
    ghost var joined := cat[..];
    ExactOne();
    Multiply(EXACT, [mem0, mem1], cat, w, out, m, n, 2 * k, 2, 1, 1, cores, 0, [0, 1], 0.0, 1.0);
    assert cat[..] == joined;
  }

  /** What it leaves is the product, for all inputs and old outputs. */
  ghost predicate BaselineRight(m: nat, n: nat, k: nat, cores: nat)
    requires cores > 0
  {
    forall r: seq<real>, cat: seq<real>, w: seq<real>, out: seq<real> ::
      |cat| == m * (2 * k) && |w| == (2 * k) * n && |r| == |out| == m * n
      && IsTiled(EXACT, r, cat, w, out, 0.0, m, n, 2 * k, TilingOf(m, n, 2 * k, 2, 1, 1, cores, 2)) ==>
        IsProduct(EXACT, r, cat, w, out, 0.0, m, n, 2 * k)
  }

  /** That is so if and only if the rows fall into two halves that the cores divide. */
  lemma BaselineExactly(m: nat, n: nat, k: nat, cores: nat)
    requires cores > 0 && n > 0
    ensures BaselineRight(m, n, k, cores) <==> m % 2 == 0 && Quot(m, 2) % cores == 0
  {
    Ones(n);
    Ones(2 * k);
    if m % 2 == 0 && Quot(m, 2) % cores == 0 {
      forall r: seq<real>, cat: seq<real>, w: seq<real>, out: seq<real>
        | |cat| == m * (2 * k) && |w| == (2 * k) * n && |r| == |out| == m * n
          && IsTiled(EXACT, r, cat, w, out, 0.0, m, n, 2 * k, TilingOf(m, n, 2 * k, 2, 1, 1, cores, 2))
        ensures IsProduct(EXACT, r, cat, w, out, 0.0, m, n, 2 * k)
      {
        TiledIsProduct(EXACT, r, cat, w, out, 0.0, m, n, 2 * k, 2, 1, 1, cores, 2);
      }
    } else {
      var i := IdleRow(m, n, 2 * k, cores);
      BaselineFails(m, n, k, cores, i);
    }
  }

  /** Some row is nobody's: the odd last one, or the last of a half. */
  lemma IdleRow(m: nat, n: nat, K: nat, cores: nat) returns (i: nat)
    requires cores > 0 && !(m % 2 == 0 && Quot(m, 2) % cores == 0)
    ensures i < m && !Worked(TilingOf(m, n, K, 2, 1, 1, cores, 2), i)
  {
    var t := TilingOf(m, n, K, 2, 1, 1, cores, 2);
    assert t.mTiles == 2 && t.fm == m / 2;
    if m % 2 == 1 {
      i := m - 1;
      if Worked(t, i) { WorkedBelow(t, i); }
    } else {
      RowsAll(t.fm, cores);
      i := t.fm - 1;
      WorkedIs(t, 0, t.fm - 1);
    }
  }

  lemma BaselineFails(m: nat, n: nat, k: nat, cores: nat, i: nat)
    requires cores > 0 && n > 0 && i < m && !Worked(TilingOf(m, n, 2 * k, 2, 1, 1, cores, 2), i)
    ensures !BaselineRight(m, n, k, cores)
  {
    var t := TilingOf(m, n, 2 * k, 2, 1, 1, cores, 2);
    var cat, w, out := Fill(m * (2 * k), 0.0), Fill((2 * k) * n, 0.0), Fill(m * n, 1.0);
    var r := seq(m * n, p requires 0 <= p < m * n => if Worked(t, Quot(p, n)) && Rem(p, n) < t.nTiles * t.fn then 0.0 else 1.0);
    forall y: nat, j: nat | y < m && j < n
      ensures if Worked(t, y) && j < t.nTiles * t.fn then TiledEntry(EXACT, r, cat, w, out, 0.0, m, n, 2 * k, t.kTiles * t.fk, y, j)
              else OldEntry(r, out, m, n, y, j)
    {
      PairBound(y, j, m, n);
      DivUnique(y * n + j, n, y, j);
      PlainFill(cat, w, m, 2 * k, n, y, j, 0.0, t.kTiles * t.fk);
    }
    assert IsTiled(EXACT, r, cat, w, out, 0.0, m, n, 2 * k, t);
    PairBound(i, 0, m, n);
    DivUnique(i * n + 0, n, i, 0);
    PlainFill(cat, w, m, 2 * k, n, i, 0, 0.0, 2 * k);
    assert !ProductEntry(EXACT, r, cat, w, out, 0.0, m, n, 2 * k, i, 0);
  }

  /** Both leave the same output: with beta zero the product determines it. */
  lemma ProductUnique(r: seq<real>, r': seq<real>, cat: seq<real>, w: seq<real>, z: seq<real>, z': seq<real>, m: nat, n: nat, K: nat)
    requires |r| == |r'| == |z| == |z'| == m * n && |cat| == m * K && |w| == K * n
    requires IsProduct(EXACT, r, cat, w, z, 0.0, m, n, K) && IsProduct(EXACT, r', cat, w, z', 0.0, m, n, K)
    ensures r == r'
  {
    forall p: nat | p < m * n
      ensures r[p] == r'[p]
    {
      var i, j := TileOf(m, n, p);
      assert ProductEntry(EXACT, r, cat, w, z, 0.0, m, n, K, i, j) && ProductEntry(EXACT, r', cat, w, z', 0.0, m, n, K, i, j);
    }
  }

  /** In terms of the inputs: entry (i, j) of such a product is accumulated from zero over row i of the first input, then row i of
      the second, with column j of the weights (over exact arithmetic, GemmEntries.StepsAreDot: their dot product). `inRow` and
      `inColumn` are the places in row i of an input and in column j of the weights. */
  lemma ProductInWords<T>(ar: Arith<T>, r: seq<T>, cat: seq<T>, w: seq<T>, out: seq<T>, a0: seq<T>, a1: seq<T>, m: nat, n: nat, k: nat,
                          K: nat, i: nat, j: nat, p: nat, x0: seq<T>, x1: seq<T>, y: seq<T>, inRow: nat -> nat, inColumn: nat -> nat)
      returns (acc: seq<T>)
    requires |r| == |out| == m * n && |cat| == m * K && |w| == K * n && i < m && j < n && p == i * n + j
    requires IsProduct(ar, r, cat, w, out, ar.zero, m, n, K)
    requires K == k + k && |x0| == |x1| == k && |y| == K && Joined(cat, a0, a1, m, k)
    requires (forall c: nat :: inRow(c) == i * k + c) && forall c: nat :: inColumn(c) == c * n + j
    requires forall c: nat :: c < |x0| ==> inRow(c) < |a0| && x0[c] == a0[inRow(c)]
    requires forall c: nat :: c < |x1| ==> inRow(c) < |a1| && x1[c] == a1[inRow(c)]
    requires forall c: nat :: c < |y| ==> inColumn(c) < |w| && y[c] == w[inColumn(c)]
    ensures p < |r| && |acc| == K + 1 && acc[0] == ar.zero && r[p] == acc[K]
    ensures forall c: nat :: c < |x0 + x1| ==> acc[c + 1] == ar.mac((x0 + x1)[c], y[c], acc[c])
  {
    forall c: nat ensures PlacedAt(inRow, i, k, c) {}
    RowOfBoth(cat, a0, a1, m, k, K, i, x0, x1, inRow);
    GemmEntries.InColumns(w, n, j, y, inColumn);
    acc := EntrySteps(ar, r, cat, w, out, m, n, K, i, j, x0 + x1, y);
  }

  lemma EntrySteps<T>(ar: Arith<T>, r: seq<T>, cat: seq<T>, w: seq<T>, out: seq<T>, m: nat, n: nat, K: nat, i: nat, j: nat,
                      x: seq<T>, y: seq<T>) returns (acc: seq<T>)
    requires |r| == |out| == m * n && |cat| == m * K && |w| == K * n && i < m && j < n && |x| == |y| == K
    requires IsProduct(ar, r, cat, w, out, ar.zero, m, n, K) && RowIn(cat, K, i, x) && ColumnIn(w, n, j, y)
    ensures i * n + j < |r| && |acc| == K + 1 && acc[0] == ar.zero && r[i * n + j] == acc[K]
    ensures forall c: nat :: c < |x| ==> acc[c + 1] == ar.mac(x[c], y[c], acc[c])
  {
    PairBound(i, j, m, n);
    assert ProductEntry(ar, r, cat, w, out, ar.zero, m, n, K, i, j);
    acc := GemmEntries.PlainSteps(ar, cat, w, m, K, n, i, j, Start(ar, Times(ar.zero), out[i * n + j]), x, y);
  }

  ghost predicate RowIn<T>(a: seq<T>, K: nat, i: nat, x: seq<T>) {
    forall c: nat :: c < |x| ==> GemmEntries.InRow(a, K, i, x, c)
  }

  ghost predicate ColumnIn<T>(w: seq<T>, n: nat, j: nat, y: seq<T>) {
    forall c: nat :: c < |y| ==> GemmEntries.InColumn(w, n, j, y, c)
  }

  predicate PlacedAt(inRow: nat -> nat, i: nat, k: nat, c: nat) { inRow(c) == i * k + c }

  lemma RowOfBoth<T>(cat: seq<T>, a0: seq<T>, a1: seq<T>, m: nat, k: nat, K: nat, i: nat, x0: seq<T>, x1: seq<T>, inRow: nat -> nat)
    requires K == 2 * k && Joined(cat, a0, a1, m, k) && i < m && |x0| == |x1| == k && forall c: nat :: PlacedAt(inRow, i, k, c)
    requires forall c: nat :: c < |x0| ==> inRow(c) < |a0| && x0[c] == a0[inRow(c)]
    requires forall c: nat :: c < |x1| ==> inRow(c) < |a1| && x1[c] == a1[inRow(c)]
    ensures RowIn(cat, K, i, x0 + x1)
  {
    var x := x0 + x1;
    forall c: nat | c < |x| ensures GemmEntries.InRow(cat, K, i, x, c) {
      var d := if c < k then c else c - k;
      assert PlacedAt(inRow, i, k, d);
      if c < k {
        LeftOf(cat, a0, a1, m, k, K, i, c, inRow(d), x0[d]);
      } else {
        RightOf(cat, a0, a1, m, k, K, i, c, inRow(d), x1[d]);
      }
    }
  }

  /** Element c of row i of the joined rows is v, the one at p of its input. */
  lemma LeftOf<T>(cat: seq<T>, a0: seq<T>, a1: seq<T>, m: nat, k: nat, K: nat, i: nat, c: nat, p: nat, v: T)
    requires K == 2 * k && Joined(cat, a0, a1, m, k) && i < m && c < k && p == i * k + c && p < |a0| && v == a0[p]
    ensures i * K + c < |cat| && v == cat[i * K + c]
  {
    PairBound(i, c, m, K);
    assert JoinedAt(cat, a0, a1, m, k, i, c);
  }

  lemma RightOf<T>(cat: seq<T>, a0: seq<T>, a1: seq<T>, m: nat, k: nat, K: nat, i: nat, c: nat, p: nat, v: T)
    requires K == 2 * k && Joined(cat, a0, a1, m, k) && i < m && k <= c < K && p == i * k + (c - k) && p < |a1| && v == a1[p]
    ensures i * K + c < |cat| && v == cat[i * K + c]
  {
    PairBound(i, c, m, K);
    var x := c - k;
    assert JoinedAt(cat, a0, a1, m, k, i, x);
  }
}
