/** When the streamed double-precision kernel leaves what the naive one does: exactly when both read the same cells, and
    when that is the case in terms of their arguments. */
module GemmAgree {
  import opened Arithmetic
  import opened MatMul
  import opened GemmFp64

  predicate Entries(p: Problem, m: nat, n: nat, k: nat) { m < p.M && n < p.N && k < p.K }

  /** The two kernels read the same cells: the streams walk A as the naive kernel does, and reading B as transposed in the
      columns that do not fill a block makes no difference. */
  ghost predicate Harmless(p: Problem) {
    && (forall m: nat, n: nat, k: nat :: Entries(p, m, n, k) ==> Cell(p.A, ReadA(p, Streamed, m, n, k)) == Cell(p.A, AIndex(p, p.ta, m, k)))
    && (forall m: nat, n: nat, k: nat :: Entries(p, m, n, k) && n >= Split(p) ==>
          Cell(p.B, BIndex(p, true, k, n)) == Cell(p.B, BIndex(p, p.tb, k, n)))
  }

  lemma HarmlessSame(p: Problem)
    requires Harmless(p) && p.M > 0
    ensures Same(Layout(p, Streamed), Layout(p, Naively))
  {
    var v, w := Layout(p, Streamed), Layout(p, Naively);
    forall k: nat, n: nat | k < p.K && n < p.N ensures v.b(k, n) == w.b(k, n) {
      assert Entries(p, 0, n, k);
    }
    forall m: nat, n: nat, k: nat | m < p.M && n < p.N && k < p.K ensures v.a(m, n, k) == w.a(m, n, k) {
      assert Entries(p, m, n, k);
    }
  }

  /** In particular with A not transposed, and N a multiple of 8 or B transposed. */
  lemma HarmlessWhen(p: Problem)
    requires !p.ta && (p.N % UNROLL == 0 || p.tb)
    ensures Harmless(p)
  {
    if p.N % UNROLL == 0 { WholeBlocks(p); }
  }

  lemma WholeBlocks(p: Problem)
    requires p.N % UNROLL == 0
    ensures Split(p) == p.N
  {}

  // ----- the same in terms of the arguments

  predicate Positive(p: Problem) { p.M > 0 && p.N > 0 && p.K > 0 && p.ldA > 0 && p.ldB > 0 }

  /** No address that either kernel reads is beyond 32 bits. */
  ghost predicate NoWrap(p: Problem) {
    forall ker: Kernel, m: nat, n: nat, k: nat :: Entries(p, m, n, k) ==> WithinWord(p, ker, m, n, k)
  }

  predicate WithinWord(p: Problem, ker: Kernel, m: nat, n: nat, k: nat) {
    p.A + 8 * ReadA(p, ker, m, n, k) < WORD && p.B + 8 * BIndex(p, Transposes(p, ker, n), k, n) < WORD
  }

  lemma CellsDiffer(base: nat, i: nat, j: nat)
    requires base % 8 == 0 && base + 8 * i < WORD && base + 8 * j < WORD
    ensures Cell(base, i) == Cell(base, j) <==> i == j
  {
    var c := base / 8;
    CellAt(base, i, c + i);
    CellAt(base, j, c + j);
  }

  predicate SameA(p: Problem, m: nat, n: nat, k: nat) { ReadA(p, Streamed, m, n, k) == AIndex(p, p.ta, m, k) }
  predicate SameB(p: Problem, n: nat, k: nat) { n >= Split(p) ==> BIndex(p, true, k, n) == BIndex(p, p.tb, k, n) }

  lemma SameCells(p: Problem, m: nat, n: nat, k: nat)
    requires Sane(p) && NoWrap(p) && Entries(p, m, n, k)
    ensures Cell(p.A, ReadA(p, Streamed, m, n, k)) == Cell(p.A, AIndex(p, p.ta, m, k)) <==> SameA(p, m, n, k)
    ensures (n >= Split(p) ==> Cell(p.B, BIndex(p, true, k, n)) == Cell(p.B, BIndex(p, p.tb, k, n))) <==> SameB(p, n, k)
  {
    assert WithinWord(p, Streamed, m, n, k) && WithinWord(p, Naively, m, n, k);
    CellsDiffer(p.A, ReadA(p, Streamed, m, n, k), AIndex(p, p.ta, m, k));
    if n >= Split(p) { CellsDiffer(p.B, BIndex(p, true, k, n), BIndex(p, p.tb, k, n)); }
  }

  /** A is read in the right places: it is not transposed, or each loop that reads it takes a single stride for both. */
  predicate AFits(p: Problem) {
    p.ta ==>
      && (p.N < UNROLL || p.M == 1 || (p.K == 1 && p.ldA == 8))
      && (p.N % UNROLL == 0 || p.K == 1 || p.M * p.ldA == 1)
  }

  /** B is: there is no tail, it is transposed, or transposing makes no difference. */
  predicate BFits(p: Problem) { p.N % UNROLL == 0 || p.tb || p.ldB == 1 || (p.N == 1 && p.K == 1) }

  /** The first column that is not in a block, and the last one that is. */
  lemma SplitIs(p: Problem)
    ensures Split(p) <= p.N && (Split(p) == p.N <==> p.N % UNROLL == 0) && (0 < Split(p) <==> p.N >= UNROLL)
  {}

  /** The stream over a transposed A and the naive index agree in row m at k. */
  predicate Steps(M: nat, ld: nat, m: nat, k: nat) { k * ld + m * 8 == k * M * ld + m * ld }

  lemma StepsHold(M: nat, K: nat, ld: nat, m: nat, k: nat)
    requires m < M && k < K && (M == 1 || (K == 1 && ld == 8))
    ensures Steps(M, ld, m, k)
  {
    if M == 1 { assert k * M == k; }
  }

  lemma StepsNot(M: nat, K: nat, ld: nat) returns (m: nat, k: nat)
    requires M > 1 && ld > 0 && (K > 1 || (K == 1 && ld != 8))
    ensures m < M && k < K && !Steps(M, ld, m, k)
  {
    if K == 1 {
      m, k := 1, 0;
    } else {
      m, k := 0, 1;
      MulFar(M - 1, ld);
      assert (M - 1) * ld == M * ld - ld;
    }
  }

  /** The tail over a transposed A and the naive index agree in row m at k. */
  predicate TailSteps(M: nat, ld: nat, m: nat, k: nat) { k + m * ld == k * M * ld + m * ld }

  lemma TailHolds(M: nat, K: nat, ld: nat, m: nat, k: nat)
    requires k < K && (K == 1 || M * ld == 1)
    ensures TailSteps(M, ld, m, k)
  {
    if K == 1 {
      assert k == 0 && k * M == 0;
    } else {
      assert k * M * ld == k * (M * ld);
    }
  }

  lemma TailNot(M: nat, ld: nat)
    requires M * ld != 1
    ensures !TailSteps(M, ld, 0, 1)
  {}

  lemma SameAIs(p: Problem, m: nat, n: nat, k: nat)
    requires p.ta
    ensures SameA(p, m, n, k) <==> if n < Split(p) then Steps(p.M, p.ldA, m, k) else TailSteps(p.M, p.ldA, m, k)
  {}

  lemma SameAWhen(p: Problem, m: nat, n: nat, k: nat)
    requires Entries(p, m, n, k) && AFits(p)
    ensures SameA(p, m, n, k)
  {
    SplitIs(p);
    if p.ta {
      SameAIs(p, m, n, k);
      if n < Split(p) { StepsHold(p.M, p.K, p.ldA, m, k); } else { TailHolds(p.M, p.K, p.ldA, m, k); }
    } else {
      assert k * 1 == k;
    }
  }

  lemma SameAOnlyWhen(p: Problem) returns (m: nat, n: nat, k: nat)
    requires Positive(p) && !AFits(p)
    ensures Entries(p, m, n, k) && !SameA(p, m, n, k)
  {
    SplitIs(p);
    if p.N >= UNROLL && p.M > 1 && (p.K > 1 || p.ldA != 8) {
      m, k := StepsNot(p.M, p.K, p.ldA);
      n := 0;
    } else {
      m, n, k := 0, p.N - 1, 1;
      TailNot(p.M, p.ldA);
    }
    SameAIs(p, m, n, k);
  }

  predicate Turns(ld: nat, n: nat, k: nat) { k + n * ld == k * ld + n }

  lemma TurnsNot(ld: nat, N: nat, K: nat) returns (k: nat)
    requires N > 0 && K > 0 && ld > 1 && !(N == 1 && K == 1)
    ensures k < K && !Turns(ld, N - 1, k)
  {
    k := if N > 1 then 0 else 1;
    if N > 1 {
      MulFar(N - 1, ld - 1);
      assert (N - 1) * (ld - 1) == (N - 1) * ld - (N - 1);
    }
  }

  lemma SameBWhen(p: Problem, n: nat, k: nat)
    requires n < p.N && k < p.K && BFits(p)
    ensures SameB(p, n, k)
  {
    SplitIs(p);
  }

  lemma SameBOnlyWhen(p: Problem) returns (n: nat, k: nat)
    requires Positive(p) && !BFits(p)
    ensures n < p.N && k < p.K && !SameB(p, n, k)
  {
    SplitIs(p);
    k := TurnsNot(p.ldB, p.N, p.K);
    n := p.N - 1;
  }

  /** For positive sizes and addresses that do not wrap, the condition in the kernels' arguments. */
  lemma HarmlessExactly(p: Problem)
    requires Sane(p) && Positive(p) && NoWrap(p)
    ensures Harmless(p) <==> AFits(p) && BFits(p)
  {
    if !AFits(p) {
      var m, n, k := SameAOnlyWhen(p);
      SameCells(p, m, n, k);
    } else if !BFits(p) {
      var n, k := SameBOnlyWhen(p);
      assert Entries(p, 0, n, k);
      SameCells(p, 0, n, k);
    } else {
      forall m: nat, n: nat, k: nat | Entries(p, m, n, k)
        ensures Cell(p.A, ReadA(p, Streamed, m, n, k)) == Cell(p.A, AIndex(p, p.ta, m, k))
        ensures n >= Split(p) ==> Cell(p.B, BIndex(p, true, k, n)) == Cell(p.B, BIndex(p, p.tb, k, n))
      {
        SameAWhen(p, m, n, k);
        SameBWhen(p, n, k);
        SameCells(p, m, n, k);
      }
    }
  }

  /** The streamed kernel agrees with the naive one exactly when A and B fit. */
  lemma AgreeExactly(p: Problem)
    requires Sane(p) && Positive(p) && NoWrap(p) && BothApart(p)
    ensures KernelsAgree(p) <==> AFits(p) && BFits(p)
  {
    RefinesExactly(p);
    HarmlessExactly(p);
  }

  /** In particular a transposed A of several rows is read in other places, unless K is 1 and its rows are eight apart. */
  lemma TransposedHarms(p: Problem)
    requires Sane(p) && Positive(p) && NoWrap(p) && p.ta && p.N >= UNROLL && p.M > 1 && (p.K > 1 || p.ldA != 8)
    ensures !Harmless(p)
  {
    HarmlessExactly(p);
  }

  // ----- what that means for the results

  /** With BETA 0 or 1 and multiplication by one the identity: whatever memory the naive kernel leaves, the streamed
      kernel leaves, if the two read the same cells. */
  lemma OptRefinesNaive<T>(ar: Arith<T>, mem: seq<T>, p: Problem, one: T, on: bool)
    requires |mem| == CELLS && Apart(Layout(p, Naively), CELLS) && Harmless(p)
    requires one != ar.zero && forall x: T :: x in mem ==> ar.mul(x, one) == x
    ensures Apart(Layout(p, Streamed), CELLS)
    ensures Gemm(ar, mem, Layout(p, Streamed), Flag(on)) == Gemm(ar, mem, Layout(p, Naively), Times(if on then one else ar.zero))
  {
    var v, w := Layout(p, Streamed), Layout(p, Naively);
    if p.M > 0 {
      HarmlessSame(p);
      SameApart(w, v, CELLS);
      SameGemm(ar, mem, v, w, Flag(on));
    }
    ScalesAgree(ar, mem, w, one, on);
  }

  lemma SameApart(v: View, w: View, size: nat)
    requires Apart(v, size) && Same(w, v)
    ensures Apart(w, size)
  {}

  ghost predicate BothApart(p: Problem) { Apart(Layout(p, Naively), CELLS) && Apart(Layout(p, Streamed), CELLS) }

  /** Otherwise it does not: over the free arithmetic, with BETA zero, the two kernels leave the same memory for all memories
      exactly when they read the same cells. */
  lemma RefinesExactly(p: Problem)
    requires BothApart(p)
    ensures KernelsAgree(p) <==> Harmless(p)
  {
    if Harmless(p) {
      forall mem: seq<Term> | |mem| == CELLS ensures SameResult(p, mem) { HarmlessAgree(p, mem); }
    }
    if KernelsAgree(p) {
      assert SameResult(p, Leaves(CELLS));
      AgreeHarmless(p);
    }
  }

  /** The results of the streamed kernel (Opt) and of the naive kernel (Naive) with BETA zero. */
  ghost predicate SameResult(p: Problem, mem: seq<Term>)
    requires |mem| == CELLS && BothApart(p)
  {
    Gemm(FREE, mem, Layout(p, Streamed), Flag(false)) == Gemm(FREE, mem, Layout(p, Naively), Times(FREE.zero))
  }

  lemma HarmlessAgree(p: Problem, mem: seq<Term>)
    requires |mem| == CELLS && BothApart(p) && Harmless(p)
    ensures SameResult(p, mem)
  {
    var v, w := Layout(p, Streamed), Layout(p, Naively);
    if p.M > 0 {
      HarmlessSame(p);
      SameGemm(FREE, mem, v, w, Flag(false));
    }
    SameStart(FREE, mem, w, Flag(false), Times(FREE.zero));
  }

  ghost predicate KernelsAgree(p: Problem)
    requires BothApart(p)
  {
    forall mem: seq<Term> :: |mem| == CELLS ==> SameResult(p, mem)
  }

  lemma AgreeAt(p: Problem, m: nat, n: nat, k: nat)
    requires BothApart(p) && SameResult(p, Leaves(CELLS)) && Entries(p, m, n, k)
    ensures Layout(p, Streamed).a(m, n, k) == Layout(p, Naively).a(m, n, k)
    ensures Layout(p, Streamed).b(k, n) == Layout(p, Naively).b(k, n)
  {
    SumsAgree(p, Layout(p, Streamed), Layout(p, Naively), m, n, k);
  }

  lemma SumsAgree(p: Problem, v: View, w: View, m: nat, n: nat, k: nat)
    requires v.M == w.M && v.N == w.N && v.K == w.K && m < v.M && n < v.N && k < v.K && v.c == w.c
    requires Apart(v, CELLS) && Apart(w, CELLS) && Gemm(FREE, Leaves(CELLS), v, Flag(false)) == Gemm(FREE, Leaves(CELLS), w, Times(FREE.zero))
    ensures v.a(m, n, k) == w.a(m, n, k) && v.b(k, n) == w.b(k, n)
  {
    var mem := Leaves(CELLS);
    GemmMeaning(FREE, mem, v, Flag(false));
    GemmMeaning(FREE, mem, w, Times(FREE.zero));
    assert Entry(FREE, mem, v, Flag(false), m, n) == Entry(FREE, mem, w, Times(FREE.zero), m, n);
    FreeSum(v, w, CELLS, m, n, FREE.zero, v.K, k);
  }

  lemma AgreeHarmless(p: Problem)
    requires BothApart(p) && SameResult(p, Leaves(CELLS))
    ensures Harmless(p)
  {
    forall m: nat, n: nat, k: nat | Entries(p, m, n, k)
      ensures Cell(p.A, ReadA(p, Streamed, m, n, k)) == Cell(p.A, AIndex(p, p.ta, m, k))
      ensures n >= Split(p) ==> Cell(p.B, BIndex(p, true, k, n)) == Cell(p.B, BIndex(p, p.tb, k, n))
    {
      AgreeAt(p, m, n, k);
    }
  }

  lemma CellAt(base: int, i: int, c: nat)
    requires base + 8 * i == 8 * c && 8 * c < WORD
    ensures Cell(base, i) == c
  {
    WrapSame(8 * c);
  }

  // ----- the tail can matter

  /** One row, one column and two products: A in cells 0 and 1, B in cells 8 and 10, C in cell 32. */
  const NARROW: Problem := Problem(1, 1, 2, 0, 2, false, 64, 2, false, 256, 1)

  /** A in row 0. */
  lemma FirstRow(p: Problem, ker: Kernel, m: nat, n: nat, k: nat)
    requires p.A == 0 && !p.ta && m == 0 && k < 2
    ensures Layout(p, ker).a(m, n, k) == k
  {
    assert m * p.ldA == 0;
    CellAt(p.A, ReadA(p, ker, m, n, k), k);
  }

  /** How far apart a kernel takes the elements of column 0 of B to be: two doubles a row, or read as transposed. */
  function Apart0(ker: Kernel): nat { if ker.Streamed? then 1 else 2 }

  lemma FirstColumn(p: Problem, ker: Kernel, k: nat, n: nat)
    requires p.B == 64 && !p.tb && p.ldB == 2 && Split(p) == 0 && n == 0 && k < 2
    ensures Layout(p, ker).b(k, n) == 8 + Apart0(ker) * k
  {
    assert n * p.ldB == 0;
    CellAt(p.B, BIndex(p, Transposes(p, ker, n), k, n), 8 + Apart0(ker) * k);
  }

  lemma FirstEntry(p: Problem, ker: Kernel, m: nat, n: nat)
    requires p.C == 256 && m == 0 && n == 0
    ensures Layout(p, ker).c(m, n) == 32
  {
    assert m * p.ldC == 0;
    CellAt(p.C, CIndex(p, m, n), 32);
  }

  ghost predicate NarrowCells(v: View, step: nat) {
    && v.M == 1 && v.N == 1 && v.K == 2
    && (forall m: nat, n: nat, k: nat :: m < 1 && n < 1 && k < 2 ==> v.a(m, n, k) == k)
    && (forall k: nat, n: nat :: k < 2 && n < 1 ==> v.b(k, n) == 8 + step * k)
    && (forall m: nat, n: nat :: m < 1 && n < 1 ==> v.c(m, n) == 32)
  }

  lemma NarrowView(ker: Kernel)
    ensures NarrowCells(Layout(NARROW, ker), Apart0(ker))
  {
    var v := Layout(NARROW, ker);
    forall m: nat, n: nat, k: nat | m < 1 && n < 1 && k < 2 ensures v.a(m, n, k) == k { FirstRow(NARROW, ker, m, n, k); }
    forall k: nat, n: nat | k < 2 && n < 1 ensures v.b(k, n) == 8 + Apart0(ker) * k { FirstColumn(NARROW, ker, k, n); }
    forall m: nat, n: nat | m < 1 && n < 1 ensures v.c(m, n) == 32 { FirstEntry(NARROW, ker, m, n); }
  }

  lemma NarrowApart(v: View, step: nat, size: nat)
    requires NarrowCells(v, step) && 1 <= step <= 2 && 32 < size
    ensures Apart(v, size)
  {
    assert forall k: nat :: k < 2 ==> 8 <= 8 + step * k < 32;
  }

  const INTEGER: Arith<int> := Arith(0, (x, y) => x * y, (a, b, c) => c + a * b)

  /** With every cell holding its own number, C[0, 0] should become 0 * 8 + 1 * 10; the streamed kernel reads cell 9. */
  lemma TailCanMatter(mem: seq<int>)
    requires |mem| == CELLS && forall i :: 0 <= i < CELLS ==> mem[i] == i
    ensures Sane(NARROW) && BothApart(NARROW)
    ensures Gemm(INTEGER, mem, Layout(NARROW, Naively), Times(0))[32] == 10
    ensures Gemm(INTEGER, mem, Layout(NARROW, Streamed), Flag(false))[32] == 9
  {
    NarrowView(Streamed);
    NarrowView(Naively);
    NarrowApart(Layout(NARROW, Streamed), 1, CELLS);
    NarrowApart(Layout(NARROW, Naively), 2, CELLS);
    NarrowEntry(mem, Layout(NARROW, Naively), Times(0), 2);
    NarrowEntry(mem, Layout(NARROW, Streamed), Flag(false), 1);
  }

  lemma NarrowEntry(mem: seq<int>, v: View, sc: Scale<int>, step: nat)
    requires |mem| > 32 && (forall i :: 0 <= i < |mem| ==> mem[i] == i) && NarrowCells(v, step) && 1 <= step <= 2
    requires Apart(v, |mem|) && Start(INTEGER, sc, mem[32]) == 0
    ensures Gemm(INTEGER, mem, v, sc)[32] == 8 + step
  {
    GemmMeaning(INTEGER, mem, v, sc);
    assert v.c(0, 0) == 32 && v.a(0, 0, 0) == 0 && v.a(0, 0, 1) == 1 && v.b(0, 0) == 8 && v.b(1, 0) == 8 + step;
    var s0, s1 := Sum(INTEGER, mem, v, 0, 0, 0, 0), Sum(INTEGER, mem, v, 0, 0, 0, 1);
    assert s0 == 0 && s1 == INTEGER.mac(mem[0], mem[8], s0);
    assert Sum(INTEGER, mem, v, 0, 0, 0, 2) == INTEGER.mac(mem[1], mem[8 + step], s1);
  }
}
