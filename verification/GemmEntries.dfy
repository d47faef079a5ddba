/** What the multiplies leave, entry by entry, in indices and products: the accumulations written out step by step, and the dot
    products they are over exact arithmetic. */
module GemmEntries {
  import opened Arithmetic
  import opened MatMul
  import opened GemmFp64
  import TiledGemm

  // ----- any multiply

  /** The accumulation of entry (m, n), one product after the other. */
  lemma Steps<T>(ar: Arith<T>, mem: seq<T>, v: View, sc: Scale<T>, m: nat, n: nat) returns (acc: seq<T>)
    requires Apart(v, |mem|) && m < v.M && n < v.N
    ensures |acc| == v.K + 1 && Gemm(ar, mem, v, sc)[v.c(m, n)] == acc[v.K]
    ensures sc.Times? ==> acc[0] == if sc.beta != ar.zero then ar.mul(mem[v.c(m, n)], sc.beta) else ar.zero
    ensures sc.Flag? ==> acc[0] == if sc.on then mem[v.c(m, n)] else ar.zero
    ensures forall k: nat :: k < v.K ==> acc[k + 1] == ar.mac(mem[v.a(m, n, k)], mem[v.b(k, n)], acc[k])
  {
    GemmMeaning(ar, mem, v, sc);
    acc := seq(v.K + 1, (k: nat) requires k <= v.K => Sum(ar, mem, v, m, n, Start(ar, sc, mem[v.c(m, n)]), k));
  }

  lemma Changed<T>(ar: Arith<T>, mem: seq<T>, v: View, sc: Scale<T>, w: nat) returns (m: nat, n: nat)
    requires Apart(v, |mem|) && w < |mem| && Gemm(ar, mem, v, sc)[w] != mem[w]
    ensures m < v.M && n < v.N && v.c(m, n) == w
  {
    GemmMeaning(ar, mem, v, sc);
    assert !Outside(v, w);
    m, n :| m < v.M && n < v.N && v.c(m, n) == w;
  }

  // ----- the two double-precision kernels, by their addresses

  /** The naive kernel: entry (m, n) is the double at index m * ldC + n of C, and product k that of A[k + m * ldA], or of
      A[k * M * ldA + m * ldA], with B[k * ldB + n], or B[k + n * ldB]. */
  lemma NaiveEntry<T>(ar: Arith<T>, mem: seq<T>, now: seq<T>, p: Problem, beta: T, m: nat, n: nat) returns (acc: seq<T>)
    requires |mem| == CELLS && Apart(Layout(p, Naively), CELLS) && now == Gemm(ar, mem, Layout(p, Naively), Times(beta))
    requires m < p.M && n < p.N
    ensures |acc| == p.K + 1 && now[(p.C + 8 * (m * p.ldC + n)) % WORD / 8] == acc[p.K]
    ensures acc[0] == if beta != ar.zero then ar.mul(mem[(p.C + 8 * (m * p.ldC + n)) % WORD / 8], beta) else ar.zero
    ensures forall k: nat :: k < p.K ==>
              acc[k + 1] == ar.mac(mem[(p.A + 8 * (if p.ta then k * p.M * p.ldA + m * p.ldA else k + m * p.ldA)) % WORD / 8],
                                   mem[(p.B + 8 * (if p.tb then k + n * p.ldB else k * p.ldB + n)) % WORD / 8],
                                   acc[k])
  {
    var v := Layout(p, Naively);
    NaiveCells(p, m, n, 0);
    acc := Steps(ar, mem, v, Times(beta), m, n);
    forall k: nat | k < p.K
      ensures v.a(m, n, k) == (p.A + 8 * (if p.ta then k * p.M * p.ldA + m * p.ldA else k + m * p.ldA)) % WORD / 8
      ensures v.b(k, n) == (p.B + 8 * (if p.tb then k + n * p.ldB else k * p.ldB + n)) % WORD / 8
    {
      NaiveCells(p, m, n, k);
    }
  }

  lemma NaiveCells(p: Problem, m: nat, n: nat, k: nat)
    ensures var v := Layout(p, Naively);
            && v.a(m, n, k) == (p.A + 8 * (if p.ta then k * p.M * p.ldA + m * p.ldA else k + m * p.ldA)) % WORD / 8
            && v.b(k, n) == (p.B + 8 * (if p.tb then k + n * p.ldB else k * p.ldB + n)) % WORD / 8
            && v.c(m, n) == (p.C + 8 * (m * p.ldC + n)) % WORD / 8
  {}

  /** The streamed kernel in a block of eight columns: A is read at k + m * ldA, or at k * ldA + 8 * m. */
  lemma StreamedEntry<T>(ar: Arith<T>, mem: seq<T>, now: seq<T>, p: Problem, beta: bool, m: nat, n: nat) returns (acc: seq<T>)
    requires |mem| == CELLS && Apart(Layout(p, Streamed), CELLS) && now == Gemm(ar, mem, Layout(p, Streamed), Flag(beta))
    requires m < p.M && n < p.N && n < p.N / 8 * 8
    ensures |acc| == p.K + 1 && now[(p.C + 8 * (m * p.ldC + n)) % WORD / 8] == acc[p.K]
    ensures acc[0] == if beta then mem[(p.C + 8 * (m * p.ldC + n)) % WORD / 8] else ar.zero
    ensures forall k: nat :: k < p.K ==>
              acc[k + 1] == ar.mac(mem[(p.A + 8 * (if p.ta then k * p.ldA + 8 * m else k + m * p.ldA)) % WORD / 8],
                                   mem[(p.B + 8 * (if p.tb then k + n * p.ldB else k * p.ldB + n)) % WORD / 8],
                                   acc[k])
  {
    acc := Steps(ar, mem, Layout(p, Streamed), Flag(beta), m, n);
  }

  /** ... and in the columns behind the last block: as if A were not transposed and B were. */
  lemma TailEntry<T>(ar: Arith<T>, mem: seq<T>, now: seq<T>, p: Problem, beta: bool, m: nat, n: nat) returns (acc: seq<T>)
    requires |mem| == CELLS && Apart(Layout(p, Streamed), CELLS) && now == Gemm(ar, mem, Layout(p, Streamed), Flag(beta))
    requires m < p.M && n < p.N && n >= p.N / 8 * 8
    ensures |acc| == p.K + 1 && now[(p.C + 8 * (m * p.ldC + n)) % WORD / 8] == acc[p.K]
    ensures acc[0] == if beta then mem[(p.C + 8 * (m * p.ldC + n)) % WORD / 8] else ar.zero
    ensures forall k: nat :: k < p.K ==>
              acc[k + 1] == ar.mac(mem[(p.A + 8 * (k + m * p.ldA)) % WORD / 8], mem[(p.B + 8 * (k + n * p.ldB)) % WORD / 8], acc[k])
  {
    acc := Steps(ar, mem, Layout(p, Streamed), Flag(beta), m, n);
  }

  /** A cell that either kernel changes is an entry of C. */
  lemma ChangedIsEntry<T>(ar: Arith<T>, mem: seq<T>, p: Problem, ker: Kernel, sc: Scale<T>, w: nat) returns (m: nat, n: nat)
    requires |mem| == CELLS && Apart(Layout(p, ker), CELLS) && w < CELLS && Gemm(ar, mem, Layout(p, ker), sc)[w] != mem[w]
    ensures m < p.M && n < p.N && (p.C + 8 * (m * p.ldC + n)) % WORD / 8 == w
  {
    m, n := Changed(ar, mem, Layout(p, ker), sc, w);
  }

  // ----- the tiled multiply on clusters

  /** What does not divide is left over: m tiles by the clusters, the rows of a tile by the cores, the sizes by the tiles. */
  lemma TilingIs(M: nat, N: nat, K: nat, mTiles: nat, nTiles: nat, kTiles: nat, cores: nat, clusters: nat)
    requires mTiles > 0 && nTiles > 0 && kTiles > 0 && cores > 0 && clusters > 0
    ensures var t := TiledGemm.TilingOf(M, N, K, mTiles, nTiles, kTiles, cores, clusters);
            && t.fm == M / mTiles && t.fn == N / nTiles && t.fk == K / kTiles
            && t.mTiles == mTiles / clusters * clusters && t.nTiles == nTiles && t.kTiles == kTiles
            && t.rows == M / mTiles / cores * cores
  {}

  /** x and y are as much of row i of A and of column j of B as the whole k tiles hold. */
  ghost predicate RowAndColumn<T>(a: seq<T>, b: seq<T>, K: nat, N: nat, i: nat, j: nat, x: seq<T>, y: seq<T>) {
    && |x| == |y|
    && (forall k: nat :: k < |x| ==> InRow(a, K, i, x, k))
    && (forall k: nat :: k < |y| ==> InColumn(b, N, j, y, k))
  }

  ghost predicate InRow<T>(a: seq<T>, K: nat, i: nat, x: seq<T>, k: nat)
    requires k < |x|
  {
    i * K + k < |a| && x[k] == a[i * K + k]
  }

  ghost predicate InColumn<T>(b: seq<T>, N: nat, j: nat, y: seq<T>, k: nat)
    requires k < |y|
  {
    k * N + j < |b| && y[k] == b[k * N + j]
  }

  lemma InRows<T>(a: seq<T>, K: nat, i: nat, x: seq<T>, inRow: nat -> nat)
    requires forall k: nat :: inRow(k) == i * K + k
    requires forall k: nat :: k < |x| ==> inRow(k) < |a| && x[k] == a[inRow(k)]
    ensures forall k: nat :: k < |x| ==> InRow(a, K, i, x, k)
  {
    forall k: nat | k < |x| ensures InRow(a, K, i, x, k) {
      assert inRow(k) == i * K + k;
    }
  }

  lemma InColumns<T>(b: seq<T>, N: nat, j: nat, y: seq<T>, inColumn: nat -> nat)
    requires forall k: nat :: inColumn(k) == k * N + j
    requires forall k: nat :: k < |y| ==> inColumn(k) < |b| && y[k] == b[inColumn(k)]
    ensures forall k: nat :: k < |y| ==> InColumn(b, N, j, y, k)
  {
    forall k: nat | k < |y| ensures InColumn(b, N, j, y, k) {
      assert inColumn(k) == k * N + j;
    }
  }

  /** Whatever the sizes and the tiling: entry (i, j) is accumulated over the whole k tiles if its row and its column are worked
      on; row i is if its tile is one of those dealt out and it is among the rows of it that the cores take. `inRow` and
      `inColumn` are the places of x in row i of A and of y in column j of B. */
  lemma TiledSteps<T>(ar: Arith<T>, c: seq<T>, a: seq<T>, b: seq<T>, c0: seq<T>, beta: T, M: nat, N: nat, K: nat, t: TiledGemm.Tiling,
                      i: nat, j: nat, p: nat, x: seq<T>, y: seq<T>, inRow: nat -> nat, inColumn: nat -> nat) returns (acc: seq<T>)
    requires |c| == |c0| == M * N && |a| == M * K && |b| == K * N && i < M && j < N && TiledGemm.Within(t, M, N, K) && p == i * N + j
    requires TiledGemm.IsTiled(ar, c, a, b, c0, beta, M, N, K, t)
    requires t.fm > 0 && i / t.fm < t.mTiles && i % t.fm < t.rows && j < t.nTiles * t.fn
    requires |x| == |y| == t.kTiles * t.fk
    requires (forall k: nat :: inRow(k) == i * K + k) && forall k: nat :: k < |x| ==> inRow(k) < |a| && x[k] == a[inRow(k)]
    requires (forall k: nat :: inColumn(k) == k * N + j) && forall k: nat :: k < |y| ==> inColumn(k) < |b| && y[k] == b[inColumn(k)]
    ensures p < |c| && |acc| == |x| + 1 && c[p] == acc[|x|]
    ensures acc[0] == if beta != ar.zero then ar.mul(c0[p], beta) else ar.zero
    ensures forall k: nat :: k < |x| ==> acc[k + 1] == ar.mac(x[k], y[k], acc[k])
  {
    InRows(a, K, i, x, inRow);
    InColumns(b, N, j, y, inColumn);
    acc := WorkedSteps(ar, c, a, b, c0, beta, M, N, K, t, i, j, x, y);
  }

  lemma WorkedSteps<T>(ar: Arith<T>, c: seq<T>, a: seq<T>, b: seq<T>, c0: seq<T>, beta: T, M: nat, N: nat, K: nat, t: TiledGemm.Tiling,
                       i: nat, j: nat, x: seq<T>, y: seq<T>) returns (acc: seq<T>)
    requires |c| == |c0| == M * N && |a| == M * K && |b| == K * N && i < M && j < N && TiledGemm.Within(t, M, N, K)
    requires TiledGemm.IsTiled(ar, c, a, b, c0, beta, M, N, K, t)
    requires t.fm > 0 && i / t.fm < t.mTiles && i % t.fm < t.rows && j < t.nTiles * t.fn
    requires |x| == t.kTiles * t.fk && RowAndColumn(a, b, K, N, i, j, x, y)
    ensures i * N + j < |c| && |acc| == |x| + 1 && c[i * N + j] == acc[|x|]
    ensures acc[0] == if beta != ar.zero then ar.mul(c0[i * N + j], beta) else ar.zero
    ensures forall k: nat :: k < |x| ==> acc[k + 1] == ar.mac(x[k], y[k], acc[k])
  {
    RowWorked(t, i);
    PairBound(i, j, M, N);
    assert TiledGemm.TiledEntry(ar, c, a, b, c0, beta, M, N, K, t.kTiles * t.fk, i, j);
    acc := PlainSteps(ar, a, b, M, K, N, i, j, Start(ar, Times(beta), c0[i * N + j]), x, y);
  }

  /** The other entries stay. */
  lemma TiledElsewhere<T>(ar: Arith<T>, c: seq<T>, a: seq<T>, b: seq<T>, c0: seq<T>, beta: T, M: nat, N: nat, K: nat, t: TiledGemm.Tiling,
                          i: nat, j: nat)
    requires |c| == |c0| == M * N && |a| == M * K && |b| == K * N && i < M && j < N && TiledGemm.Within(t, M, N, K)
    requires TiledGemm.IsTiled(ar, c, a, b, c0, beta, M, N, K, t)
    requires t.fm == 0 || i / t.fm >= t.mTiles || i % t.fm >= t.rows || j >= t.nTiles * t.fn
    ensures i * N + j < |c| && c[i * N + j] == c0[i * N + j]
  {
    RowWorked(t, i);
    PairBound(i, j, M, N);
    assert TiledGemm.OldEntry(c, c0, M, N, i, j);
  }

  lemma RowWorked(t: TiledGemm.Tiling, i: nat)
    requires t.rows <= t.fm
    ensures TiledGemm.Worked(t, i) <==> t.fm > 0 && i / t.fm < t.mTiles && i % t.fm < t.rows
  {
    if t.fm > 0 {
      var q, r := Quot(i, t.fm), Rem(i, t.fm);
      assert TiledGemm.At2(q, t.fm, r) == i;
    }
    if mt: nat, r: nat :| mt < t.mTiles && r < t.rows && TiledGemm.At2(mt, t.fm, r) == i {
      DivUnique(i, t.fm, mt, r);
    }
  }

  lemma PlainSteps<T>(ar: Arith<T>, a: seq<T>, b: seq<T>, M: nat, K: nat, N: nat, i: nat, j: nat, start: T, x: seq<T>, y: seq<T>)
      returns (acc: seq<T>)
    requires |a| == M * K && |b| == K * N && i < M && j < N && |x| <= K && RowAndColumn(a, b, K, N, i, j, x, y)
    ensures |acc| == |x| + 1 && acc[0] == start && acc[|x|] == TiledGemm.Plain(ar, a, b, M, K, N, i, j, start, |x|)
    ensures forall k: nat :: k < |x| ==> acc[k + 1] == ar.mac(x[k], y[k], acc[k])
  {
    acc := seq(|x| + 1, (k: nat) requires k <= |x| => TiledGemm.Plain(ar, a, b, M, K, N, i, j, start, k));
    forall k: nat | k < |x| ensures acc[k + 1] == ar.mac(x[k], y[k], acc[k]) {
      PlainNext(ar, a, b, M, K, N, i, j, start, x, y, k);
    }
  }

  lemma PlainNext<T>(ar: Arith<T>, a: seq<T>, b: seq<T>, M: nat, K: nat, N: nat, i: nat, j: nat, start: T, x: seq<T>, y: seq<T>, k: nat)
    requires |a| == M * K && |b| == K * N && i < M && j < N && k < |x| <= K && RowAndColumn(a, b, K, N, i, j, x, y)
    ensures TiledGemm.Plain(ar, a, b, M, K, N, i, j, start, k + 1) == ar.mac(x[k], y[k], TiledGemm.Plain(ar, a, b, M, K, N, i, j, start, k))
  {
    assert InRow(a, K, i, x, k) && InColumn(b, N, j, y, k);
  }

  // ----- over exact arithmetic

  function Dot(x: seq<real>, y: seq<real>): real
    requires |x| == |y|
  {
    if x == [] then 0.0 else Dot(x[..|x| - 1], y[..|y| - 1]) + x[|x| - 1] * y[|y| - 1]
  }

  lemma {:induction false} StepsAreDot(acc: seq<real>, x: seq<real>, y: seq<real>)
    requires |x| == |y| && |acc| == |x| + 1 && forall k: nat :: k < |x| ==> acc[k + 1] == EXACT.mac(x[k], y[k], acc[k])
    ensures acc[|x|] == acc[0] + Dot(x, y)
  {
    if x == [] {
    } else {
      var n := |x| - 1;
      StepsAreDot(acc[..|acc| - 1], x[..n], y[..n]);
    }
  }

  /** Any accumulation of these, of the naive kernel or of the tiled multiply, ends as beta times the old entry plus the dot
      product. */
  lemma ExactSteps(acc: seq<real>, x: seq<real>, y: seq<real>, beta: real, was: real)
    requires |x| == |y| && |acc| == |x| + 1 && forall k: nat :: k < |x| ==> acc[k + 1] == EXACT.mac(x[k], y[k], acc[k])
    requires acc[0] == if beta != EXACT.zero then EXACT.mul(was, beta) else EXACT.zero
    ensures acc[|x|] == beta * was + Dot(x, y)
  {
    StepsAreDot(acc, x, y);
    ExactStart(was, beta);
  }

  lemma ExactStart(was: real, beta: real)
    ensures (if beta != EXACT.zero then EXACT.mul(was, beta) else EXACT.zero) == beta * was
  {}

  /** An entry ends as beta times the old one plus the dot product of row x of A and column y of B. */
  lemma ExactEntry(mem: seq<real>, v: View, beta: real, m: nat, n: nat, x: seq<real>, y: seq<real>)
    requires Apart(v, |mem|) && m < v.M && n < v.N && |x| == |y| == v.K
    requires forall k: nat :: k < v.K ==> x[k] == mem[v.a(m, n, k)] && y[k] == mem[v.b(k, n)]
    ensures Gemm(EXACT, mem, v, Times(beta))[v.c(m, n)] == beta * mem[v.c(m, n)] + Dot(x, y)
  {
    var acc := Steps(EXACT, mem, v, Times(beta), m, n);
    ExactSteps(acc, x, y, beta, mem[v.c(m, n)]);
  }
}
