/** Double-precision matrix multiply: the naive kernel and the kernel that consumes two address streams eight
    columns at a time. Both work on one memory of doubles with 32-bit byte addresses. */
module GemmFp64 {
  import opened MatMul
  import opened Arithmetic
  import opened Ssr

  const CELLS: nat := 0x2000_0000

  /** The memory cell of the double at index i of an array at byte address `base`; both wrap at 32 bits. */
  function Cell(base: int, i: int): (c: nat)
    ensures c < CELLS
  {
    Wrap(base + 8 * i) / 8
  }

  /** The kernels' arguments; A, B and C are byte addresses, ldA, ldB and ldC count elements. */
  datatype Problem = Problem(M: nat, N: nat, K: nat, A: nat, ldA: nat, ta: bool, B: nat, ldB: nat, tb: bool, C: nat, ldC: nat)

  predicate Sane(p: Problem) {
    && p.M < WORD && p.N < WORD && p.K < WORD && p.ldA < WORD && p.ldB < WORD && p.ldC < WORD
    && p.A < WORD && p.B < WORD && p.C < WORD && p.A % 8 == 0 && p.B % 8 == 0 && p.C % 8 == 0
  }

  function AIndex(p: Problem, ta: bool, m: nat, k: nat): nat { if ta then k * p.M * p.ldA + m * p.ldA else k + m * p.ldA }
  function BIndex(p: Problem, tb: bool, k: nat, n: nat): nat { if tb then k + n * p.ldB else k * p.ldB + n }
  function CIndex(p: Problem, m: nat, n: nat): nat { m * p.ldC + n }

  const UNROLL: nat := 8

  /** The two kernels. The streamed one takes the columns below Split in blocks and the others one by one. */
  datatype Kernel = Naively | Streamed

  function Split(p: Problem): nat { UNROLL * (p.N / UNROLL) }

  /** What the first stream steps over from k to k + 1, and between rows of A (lines 68 to 81). With a transposed A the
      rows of the product are taken to be eight apart. */
  function StreamCol(p: Problem): nat { if p.ta then p.ldA else 1 }
  function StreamRow(p: Problem): nat { if p.ta then 8 else p.ldA }
  function StreamAt(p: Problem, m: nat, k: nat): nat { k * StreamCol(p) + m * StreamRow(p) }

  /** Where a kernel reads A[m, k] for column n. */
  function ReadA(p: Problem, ker: Kernel, m: nat, n: nat, k: nat): nat {
    if ker.Naively? then AIndex(p, p.ta, m, k) else if n < Split(p) then StreamAt(p, m, k) else AIndex(p, false, m, k)
  }

  /** Whether it reads column n of B as that of a transposed one. */
  predicate Transposes(p: Problem, ker: Kernel, n: nat) { p.tb || (ker.Streamed? && n >= Split(p)) }

  /** The matrices of a problem as a kernel reads them. */
  function Layout(p: Problem, ker: Kernel): View {
    View(p.M, p.N, p.K,
         (m: nat, n: nat, k: nat) => Cell(p.A, ReadA(p, ker, m, n, k)),
         (k: nat, n: nat) => Cell(p.B, BIndex(p, Transposes(p, ker, n), k, n)),
         (m: nat, n: nat) => Cell(p.C, CIndex(p, m, n)))
  }

  /** The sizes of the view, and its cells of C. Cells are looked up where an index expression is mentioned, and nowhere
      else. */
  ghost predicate LaidOut(v: View, p: Problem) {
    var laidOut :=
      && v.M == p.M && v.N == p.N && v.K == p.K
      && forall m: nat, n: nat {:trigger CIndex(p, m, n)} :: v.c(m, n) == Cell(p.C, CIndex(p, m, n));
    laidOut
  }

  /** For column n, A and B are read transposed or not as given. */
  ghost predicate Reads(v: View, p: Problem, ta: bool, tb: bool, n: nat) {
    var cells :=
      && (forall m: nat, k: nat {:trigger AIndex(p, ta, m, k)} :: v.a(m, n, k) == Cell(p.A, AIndex(p, ta, m, k)))
      && (forall k: nat {:trigger BIndex(p, tb, k, n)} :: v.b(k, n) == Cell(p.B, BIndex(p, tb, k, n)));
    cells
  }

  lemma NaivelyReads(p: Problem)
    ensures LaidOut(Layout(p, Naively), p) && forall n: nat :: Reads(Layout(p, Naively), p, p.ta, p.tb, n)
  {}

  lemma TailReads(p: Problem)
    ensures LaidOut(Layout(p, Streamed), p) && forall n: nat :: n >= Split(p) ==> Reads(Layout(p, Streamed), p, false, true, n)
  {}

  /** A 32-bit index expression addresses the same cell as the unbounded one. */
  lemma CellWrap(base: int, i: int)
    ensures Cell(base, Wrap(i)) == Cell(base, i)
  {
    var q := i / WORD;
    assert i == WORD * q + Wrap(i);
    assert base + 8 * i == base + 8 * Wrap(i) + WORD * (8 * q);
    WrapShift(base + 8 * Wrap(i), 8 * q);
  }

  // ----- the naive kernel

  /** The inner product over k of one entry, in memory order (lines 17 to 19, 169 to 171). */
  method Accumulate<T(==)>(ar: Arith<T>, mem: array<T>, p: Problem, ghost v: View, ta: bool, tb: bool,
                           ghost m0: seq<T>, ghost sc: Scale<T>, m: nat, n: nat, start: T)
      returns (c0: T)
    requires mem.Length == CELLS == |m0| && LaidOut(v, p) && Apart(v, CELLS) && m < p.M && n < p.N
    requires Reads(v, p, ta, tb, n)
    requires Swept(ar, m0, mem[..], v, sc, m, n)
    ensures c0 == Sum(ar, m0, v, m, n, start, p.K)
  {
    c0 := start;
    for k := 0 to p.K
      invariant c0 == Sum(ar, m0, v, m, n, start, k)
    {
      CellWrap(p.A, AIndex(p, ta, m, k));
      CellWrap(p.B, BIndex(p, tb, k, n));
      OperandsKept(ar, m0, mem[..], v, sc, m, n, m, n, k);
      var a, b := mem[Cell(p.A, Wrap(AIndex(p, ta, m, k)))], mem[Cell(p.B, Wrap(BIndex(p, tb, k, n)))];
      assert a == mem[..][v.a(m, n, k)] && b == mem[..][v.b(k, n)];
      c0 := ar.mac(a, b, c0);
    }
  }

  /** Entry n of row m of C as the work stands: still the initial one. */
  method OldEntry<T>(ghost ar: Arith<T>, mem: array<T>, p: Problem, ghost v: View, ghost m0: seq<T>, ghost sc: Scale<T>, m: nat, ghost n: nat, j: nat)
      returns (c: T)
    requires mem.Length == CELLS == |m0| && LaidOut(v, p) && Apart(v, CELLS) && m < p.M && n <= j < p.N
    requires Swept(ar, m0, mem[..], v, sc, m, n)
    ensures c == m0[v.c(m, j)]
  {
    CellWrap(p.C, CIndex(p, m, j));
    EntryKept(ar, m0, mem[..], v, sc, m, n, j);
    c := mem[Cell(p.C, Wrap(CIndex(p, m, j)))];
    assert c == mem[..][v.c(m, j)];
  }

  /** The store of one entry advances the sweep by one. */
  method StoreEntry<T>(ghost ar: Arith<T>, mem: array<T>, p: Problem, ghost v: View, ghost m0: seq<T>, ghost sc: Scale<T>, m: nat, n: nat, x: T)
    requires mem.Length == CELLS == |m0| && LaidOut(v, p) && Apart(v, CELLS) && m < p.M && n < p.N
    requires Swept(ar, m0, mem[..], v, sc, m, n)
    requires x == Entry(ar, m0, v, sc, m, n)
    modifies mem
    ensures Swept(ar, m0, mem[..], v, sc, m, n + 1)
  {
    CellWrap(p.C, CIndex(p, m, n));
    ghost var was := mem[..];
    mem[Cell(p.C, Wrap(CIndex(p, m, n)))] := x;
    SweptNext(ar, m0, was, v, sc, m, n, mem[..]);
  }

  method Naive<T(==)>(ar: Arith<T>, mem: array<T>, p: Problem, beta: T)
    requires mem.Length == CELLS && Sane(p) && Apart(Layout(p, Naively), CELLS)
    modifies mem
    ensures mem[..] == Gemm(ar, old(mem[..]), Layout(p, Naively), Times(beta))
  {
    NaivelyReads(p);
    NaiveLoops(ar, mem, p, Layout(p, Naively), beta);
  }

  method NaiveLoops<T(==)>(ar: Arith<T>, mem: array<T>, p: Problem, ghost v: View, beta: T)
    requires mem.Length == CELLS && LaidOut(v, p) && (forall n: nat :: Reads(v, p, p.ta, p.tb, n)) && Apart(v, CELLS)
    modifies mem
    ensures mem[..] == Gemm(ar, old(mem[..]), v, Times(beta))
  {
    ghost var m0, sc := mem[..], Times(beta);
    SweptStart(ar, m0, v, sc);
    for m := 0 to p.M
      invariant Swept(ar, m0, mem[..], v, sc, m, 0)
    {
      for n := 0 to p.N
        invariant Swept(ar, m0, mem[..], v, sc, m, n)
      {
        var c := OldEntry(ar, mem, p, v, m0, sc, m, n, n);
        var c0 := if beta != ar.zero then ar.mul(c, beta) else ar.zero;
        c0 := Accumulate(ar, mem, p, v, p.ta, p.tb, m0, sc, m, n, c0);
        StoreEntry(ar, mem, p, v, m0, sc, m, n, c0);
      }
      SweptRow(ar, m0, mem[..], v, sc, m);
    }
    SweptEnd(ar, m0, mem[..], v, sc);
  }

  // ----- the streamed kernel

  /** Strides of the stream over A (lines 68 to 81), innermost first: k, block, row. */
  function AStrides(p: Problem): seq<nat> { [Wrap(8 * StreamCol(p)), 0, Wrap(8 * StreamRow(p))] }

  /** Registers of the stream over A (lines 76 to 81): rank 3 is programmed, the fourth bound and stride are whatever
      they were. */
  predicate StreamsA(bound: seq<nat>, stride: seq<nat>, p: Problem) {
    && |bound| == |stride| == 4 && bound[3] < WORD && stride[3] < WORD
    && bound[..3] == [Wrap(p.K - 1), Wrap(p.N / UNROLL - 1), Wrap(p.M - 1)]
    && stride[..3] == Wraps(Deltas(bound[..3], AStrides(p), 0))
  }

  /** Strides of the stream over B (lines 85 to 98), innermost first: column in block, k, block, row. */
  function BStrides(p: Problem): seq<nat> {
    if p.tb then [Wrap(8 * p.ldB), 8, Wrap(8 * p.ldB * UNROLL), 0] else [8, Wrap(8 * p.ldB), 8 * UNROLL, 0]
  }

  predicate StreamsB(bound: seq<nat>, stride: seq<nat>, p: Problem) {
    && bound == [UNROLL - 1, Wrap(p.K - 1), Wrap(p.N / UNROLL - 1), Wrap(p.M - 1)]
    && stride == Wraps(Deltas(bound, BStrides(p), 0))
  }

  lemma WrapSame(x: nat)
    requires x < WORD
    ensures Wrap(x) == x
  {}

  /** Eight times the cell is the address. */
  lemma CellAddress(base: nat, i: int, address: nat)
    requires base % 8 == 0 && address == Wrap(base + 8 * i)
    ensures address == 8 * Cell(base, i)
  {}

  /** The stride that the fourth stride register stands for. */
  function Fourth(bound: seq<nat>, stride: seq<nat>, p: Problem): nat
    requires |bound| == |stride| == 4
  {
    stride[3] + (AStrides(p)[0] * bound[0] + 0 * bound[1] + AStrides(p)[2] * bound[2])
  }

  /** The registers of the stream over A encode the nest (k, block, row) and some fourth loop. */
  lemma StreamsANest(bound: seq<nat>, stride: seq<nat>, p: Problem)
    requires Sane(p) && StreamsA(bound, stride, p) && 0 < p.K && 0 < p.N / UNROLL && 0 < p.M
    ensures bound[0] == p.K - 1 && bound[1] == p.N / UNROLL - 1 && bound[2] == p.M - 1
    ensures stride == Wraps(Deltas(bound, AStrides(p) + [Fourth(bound, stride, p)], 0))
  {
    WrapSame(p.K - 1);
    WrapSame(p.N / UNROLL - 1);
    WrapSame(p.M - 1);
    assert bound[0] == bound[..3][0] && bound[1] == bound[..3][1] && bound[2] == bound[..3][2];
    FourthEncoded(bound, stride, AStrides(p), Fourth(bound, stride, p));
  }

  /** Three programmed strides and a fourth one. */
  lemma FourthEncoded(bound: seq<nat>, stride: seq<nat>, s: seq<int>, s3: int)
    requires |bound| == |stride| == 4 && |s| == 3 && stride[3] < WORD && stride[..3] == Wraps(Deltas(bound[..3], s, 0))
    requires s3 == stride[3] + (s[0] * bound[0] + s[1] * bound[1] + s[2] * bound[2])
    ensures stride == Wraps(Deltas(bound, s + [s3], 0))
  {
    assert bound == [bound[0], bound[1], bound[2], bound[3]] && bound[..3] == [bound[0], bound[1], bound[2]] && s == [s[0], s[1], s[2]];
    Encoded4(bound[0], bound[1], bound[2], bound[3], s[0], s[1], s[2], stride[3]);
    assert stride == stride[..3] + [stride[3]] && s + [s3] == [s[0], s[1], s[2], s3];
  }

  /** The number of pairs of row m, block n0 and k before this one, in the order of the loops. */
  function Element(p: Problem, m: nat, n0: nat, k: nat): nat { k + p.K * (n0 + (p.N / UNROLL) * m) }

  lemma AOffset(x: int, m: nat, k: nat, col: nat, row: nat)
    ensures Wrap(x + k * Wrap(8 * col) + m * Wrap(8 * row)) == Wrap(x + 8 * (k * col + m * row))
  {
    ScaledWrap(x + k * Wrap(8 * col), m, 8 * row);
    ScaledWrap(x + m * (8 * row), k, 8 * col);
    Eightfold(m, row);
    Eightfold(k, col);
  }

  lemma Eightfold(i: nat, d: nat)
    ensures i * (8 * d) == 8 * (i * d)
  {}

  /** Where the stream over A is for row m, block n0 and k, whatever the fourth dimension is set to. */
  lemma AddressA(bound: seq<nat>, stride: seq<nat>, p: Problem, m: nat, n0: nat, k: nat)
    requires Sane(p) && StreamsA(bound, stride, p) && m < p.M && n0 < p.N / UNROLL && k < p.K
    ensures Walk(bound, stride, p.A, Element(p, m, n0, k)) == 8 * Cell(p.A, StreamAt(p, m, k))
  {
    WalkA(bound, stride, p, m, n0, k);
    AOffset(p.A, m, k, StreamCol(p), StreamRow(p));
    CellAddress(p.A, StreamAt(p, m, k), Wrap(p.A + 8 * StreamAt(p, m, k)));
  }

  lemma WalkA(bound: seq<nat>, stride: seq<nat>, p: Problem, m: nat, n0: nat, k: nat)
    requires Sane(p) && StreamsA(bound, stride, p) && m < p.M && n0 < p.N / UNROLL && k < p.K
    ensures Walk(bound, stride, p.A, Element(p, m, n0, k)) == Wrap(p.A + k * AStrides(p)[0] + m * AStrides(p)[2])
  {
    StreamsANest(bound, stride, p);
    Element4(bound, stride, AStrides(p) + [Fourth(bound, stride, p)], p.A, k, n0, m, 0);
    assert m + (bound[2] + 1) * 0 == m && n0 * 0 == 0;
  }

  /** A 32-bit stride, taken i times. */
  lemma ScaledWrap(x: int, i: nat, stride: nat)
    ensures Wrap(x + i * Wrap(stride)) == Wrap(x + i * stride)
  {
    var q := stride / WORD;
    assert stride == Wrap(stride) + WORD * q;
    assert i * stride == i * Wrap(stride) + WORD * (i * q) by { assert i * (WORD * q) == WORD * (i * q); }
    WrapShift(x + i * Wrap(stride), i * q);
  }

  lemma WalkB(bound: seq<nat>, stride: seq<nat>, p: Problem, m: nat, n0: nat, k: nat, u: nat)
    requires Sane(p) && StreamsB(bound, stride, p) && m < p.M && n0 < p.N / UNROLL && k < p.K && u < UNROLL
    ensures Walk(bound, stride, p.B, u + UNROLL * Element(p, m, n0, k))
            == Wrap(p.B + u * BStrides(p)[0] + k * BStrides(p)[1] + n0 * BStrides(p)[2])
  {
    var nb := p.N / UNROLL;
    WrapSame(p.K - 1);
    WrapSame(nb - 1);
    WrapSame(p.M - 1);
    Element4(bound, stride, BStrides(p), p.B, u, k, n0, m);
    assert m * 0 == 0;
  }

  /** Where the stream over B is for row m, block n0, k and column u of the block: at B[k, 8 n0 + u]. */
  lemma AddressB(bound: seq<nat>, stride: seq<nat>, p: Problem, m: nat, n0: nat, k: nat, u: nat)
    requires Sane(p) && StreamsB(bound, stride, p) && m < p.M && n0 < p.N / UNROLL && k < p.K && u < UNROLL
    ensures Walk(bound, stride, p.B, u + UNROLL * Element(p, m, n0, k))
            == 8 * Cell(p.B, BIndex(p, p.tb, k, UNROLL * n0 + u))
  {
    WalkB(bound, stride, p, m, n0, k, u);
    BOffset(p, k, n0, u);
    CellAddress(p.B, BIndex(p, p.tb, k, UNROLL * n0 + u), Wrap(p.B + 8 * BIndex(p, p.tb, k, UNROLL * n0 + u)));
  }

  lemma BOffset(p: Problem, k: nat, n0: nat, u: nat)
    ensures var s := BStrides(p);
            Wrap(p.B + u * s[0] + k * s[1] + n0 * s[2]) == Wrap(p.B + 8 * BIndex(p, p.tb, k, UNROLL * n0 + u))
  {
    if p.tb {
      Transposed(p.B, p.ldB, k, n0, u);
    } else {
      Straight(p.B, p.ldB, k, n0, u);
    }
  }

  lemma Transposed(B: nat, ld: nat, k: nat, n0: nat, u: nat)
    ensures Wrap(B + u * Wrap(8 * ld) + k * 8 + n0 * Wrap(8 * ld * UNROLL)) == Wrap(B + 8 * (k + (UNROLL * n0 + u) * ld))
  {
    var w := 8 * ld * UNROLL;
    ScaledWrap(B + u * Wrap(8 * ld) + k * 8, n0, w);
    ScaledWrap(B + k * 8 + n0 * w, u, 8 * ld);
    Regroup(ld, n0, u);
  }

  lemma Regroup(ld: nat, n0: nat, u: nat)
    ensures u * (8 * ld) + n0 * (8 * ld * UNROLL) == 8 * ((UNROLL * n0 + u) * ld)
  {
    assert n0 * (8 * ld * UNROLL) == 8 * (UNROLL * n0 * ld);
    assert u * (8 * ld) == 8 * (u * ld);
    assert (UNROLL * n0 + u) * ld == UNROLL * n0 * ld + u * ld;
  }

  lemma Straight(B: nat, ld: nat, k: nat, n0: nat, u: nat)
    ensures Wrap(B + u * 8 + k * Wrap(8 * ld) + n0 * (8 * UNROLL)) == Wrap(B + 8 * (k * ld + (UNROLL * n0 + u)))
  {
    ScaledWrap(B + u * 8 + n0 * (8 * UNROLL), k, 8 * ld);
    assert k * (8 * ld) == 8 * (k * ld);
  }

  /** The double at the next address of a rank-4 stream: one read of ft0 or ft1. */
  method Fetch<T>(mem: array<T>, l: Lane) returns (x: T)
    requires mem.Length == CELLS && l.Valid() && |l.idx| == 4
    modifies l`idx, l`ptr, l`served, l`steps
    ensures l.Valid() && |l.idx| == 4
    ensures x == mem[Walk(l.bound, l.stride, l.base, old(l.steps)) / 8]
    ensures if old(l.served) < l.repeat then l.served == old(l.served) + 1 && l.steps == old(l.steps)
            else l.served == 0 && l.steps == old(l.steps) + 1
  {
    assert l.bound[..4] == l.bound && l.stride[..4] == l.stride;
    var address := l.Pop();
    x := mem[address / 8];
  }

  /** Both streams run, the first serving each element eight times, and column u of element t is next. */
  ghost predicate Mid(l0: Lane, l1: Lane, t: nat, u: nat)
    reads l0, l1
  {
    && l0 != l1 && l0.Valid() && l1.Valid() && |l0.idx| == |l1.idx| == 4
    && l0.repeat == UNROLL - 1 && l1.repeat == 0
    && (if u < UNROLL then l0.served == u && l0.steps == t else l0.served == 0 && l0.steps == t + 1)
    && l1.served == 0 && l1.steps == UNROLL * t + u
  }

  /** The operands of block n0 of row m are the initial ones. */
  ghost predicate Intact<T>(mem: seq<T>, m0: seq<T>, v: View, m: nat, n0: nat)
    requires |mem| == |m0| && Apart(v, |m0|) && m < v.M && UNROLL * n0 + UNROLL <= v.N
  {
    && (forall k: nat, j: nat :: k < v.K && j < v.N ==> mem[v.a(m, j, k)] == m0[v.a(m, j, k)])
    && (forall k: nat, j: nat :: k < v.K && j < v.N ==> mem[v.b(k, j)] == m0[v.b(k, j)])
  }

  /** Element t + k of the first stream is A[m, k], and the eight of the second that go with it are B[k] in block n0. */
  ghost predicate Feeds(l0: Lane, l1: Lane, v: View, t: nat, m: nat, n0: nat, k: nat)
    requires |l0.bound| == |l0.stride| && |l1.bound| == |l1.stride|
    reads l0`bound, l0`stride, l0`base, l1`bound, l1`stride, l1`base
  {
    forall u: nat :: u < UNROLL ==> FeedsPair(l0, l1, v, t, m, n0, k, u)
  }

  ghost predicate FeedsPair(l0: Lane, l1: Lane, v: View, t: nat, m: nat, n0: nat, k: nat, u: nat)
    requires |l0.bound| == |l0.stride| && |l1.bound| == |l1.stride|
    reads l0`bound, l0`stride, l0`base, l1`bound, l1`stride, l1`base
  {
    && Walk(l0.bound, l0.stride, l0.base, t + k) / 8 == v.a(m, UNROLL * n0 + u, k)
    && Column(l1.bound, l1.stride, l1.base, t, k, u) == v.b(k, UNROLL * n0 + u)
  }

  /** The cell of element 8 (t + k) + u of a stream. */
  function Column(bound: seq<nat>, stride: seq<nat>, base: nat, t: nat, k: nat, u: nat): (c: nat)
    requires |bound| == |stride|
    ensures c < CELLS
  {
    Walk(bound, stride, base, UNROLL * (t + k) + u) / 8
  }

  /** The accumulators of block n0 of row m: column 8 n0 + u holds the initial value c[u] and the first k products. */
  ghost predicate Holds<T>(ar: Arith<T>, m0: seq<T>, v: View, m: nat, n0: nat, c: seq<T>, k: nat, u: nat, c': seq<T>)
    requires Apart(v, |m0|) && m < v.M && UNROLL * n0 + UNROLL <= v.N && k <= v.K && (u > 0 ==> k < v.K)
  {
    && |c| == |c'| == UNROLL
    && forall j: nat :: j < UNROLL ==> c'[j] == Sum(ar, m0, v, m, UNROLL * n0 + j, c[j], if j < u then k + 1 else k)
  }

  /** One multiply-add on the initial operands. */
  lemma HoldsStep<T>(ar: Arith<T>, m0: seq<T>, v: View, m: nat, n0: nat, c: seq<T>, k: nat, u: nat, c': seq<T>)
    requires Apart(v, |m0|) && m < v.M && UNROLL * n0 + UNROLL <= v.N && k < v.K && u < UNROLL
    requires Holds(ar, m0, v, m, n0, c, k, u, c')
    ensures Holds(ar, m0, v, m, n0, c, k, u + 1, c'[u := ar.mac(m0[v.a(m, UNROLL * n0 + u, k)], m0[v.b(k, UNROLL * n0 + u)], c'[u])])
  {}

  /** The accumulators after a whole body are those before the next. */
  lemma HoldsNext<T>(ar: Arith<T>, m0: seq<T>, v: View, m: nat, n0: nat, c: seq<T>, k: nat, c': seq<T>)
    requires Apart(v, |m0|) && m < v.M && UNROLL * n0 + UNROLL <= v.N && k < v.K
    requires Holds(ar, m0, v, m, n0, c, k, UNROLL, c')
    ensures Holds(ar, m0, v, m, n0, c, k + 1, 0, c')
  {}

  lemma MidNext(l0: Lane, l1: Lane, t: nat)
    requires Mid(l0, l1, t, UNROLL)
    ensures Mid(l0, l1, t + 1, 0)
  {}

  /** The pair of operands for column u of the block, read from the two streams. */
  method Pair<T>(mem: array<T>, l0: Lane, l1: Lane, ghost v: View, ghost t: nat, ghost m: nat, ghost n0: nat, ghost k: nat, ghost u: nat)
      returns (a: T, b: T)
    requires mem.Length == CELLS && u < UNROLL && Mid(l0, l1, t + k, u) && Feeds(l0, l1, v, t, m, n0, k)
    modifies l0`idx, l0`ptr, l0`served, l0`steps, l1`idx, l1`ptr, l1`served, l1`steps
    ensures Mid(l0, l1, t + k, u + 1) && v.a(m, UNROLL * n0 + u, k) < CELLS && v.b(k, UNROLL * n0 + u) < CELLS
    ensures a == mem[v.a(m, UNROLL * n0 + u, k)] && b == mem[v.b(k, UNROLL * n0 + u)]
  {
    assert FeedsPair(l0, l1, v, t, m, n0, k, u);
    a := Fetch(mem, l0);
    b := Fetch(mem, l1);
  }

  /** One body of the frep: eight multiply-adds, each on the next pair of stream elements. */
  method Body<T>(ar: Arith<T>, mem: array<T>, l0: Lane, l1: Lane, ghost v: View, ghost m0: seq<T>,
                 ghost t: nat, ghost m: nat, ghost n0: nat, ghost k: nat, ghost c: seq<T>, c1: seq<T>)
      returns (c': seq<T>)
    requires mem.Length == CELLS == |m0| && Apart(v, CELLS) && m < v.M && UNROLL * n0 + UNROLL <= v.N && k < v.K
    requires Intact(mem[..], m0, v, m, n0)
    requires Mid(l0, l1, t + k, 0) && Feeds(l0, l1, v, t, m, n0, k)
    requires Holds(ar, m0, v, m, n0, c, k, 0, c1)
    modifies l0`idx, l0`ptr, l0`served, l0`steps, l1`idx, l1`ptr, l1`served, l1`steps
    ensures Mid(l0, l1, t + k + 1, 0)
    ensures Holds(ar, m0, v, m, n0, c, k + 1, 0, c')
  {
    c' := c1;
    for u := 0 to UNROLL
      invariant Mid(l0, l1, t + k, u) && Holds(ar, m0, v, m, n0, c, k, u, c')
    {
      HoldsStep(ar, m0, v, m, n0, c, k, u, c');
      var a, b := Pair(mem, l0, l1, v, t, m, n0, k, u);
      assert a == mem[..][v.a(m, UNROLL * n0 + u, k)] && b == mem[..][v.b(k, UNROLL * n0 + u)];
      c' := c'[u := ar.mac(a, b, c'[u])];
    }
    HoldsNext(ar, m0, v, m, n0, c, k, c');
    MidNext(l0, l1, t + k);
  }

  /** The frep: K bodies. */
  method Block<T>(ar: Arith<T>, mem: array<T>, K: nat, l0: Lane, l1: Lane, ghost v: View, ghost m0: seq<T>,
                  ghost t: nat, ghost m: nat, ghost n0: nat, c: seq<T>)
      returns (c': seq<T>)
    requires mem.Length == CELLS == |m0| && Apart(v, CELLS) && m < v.M && UNROLL * n0 + UNROLL <= v.N && K == v.K && |c| == UNROLL
    requires Intact(mem[..], m0, v, m, n0)
    requires Mid(l0, l1, t, 0) && forall k: nat :: k < K ==> Feeds(l0, l1, v, t, m, n0, k)
    modifies l0`idx, l0`ptr, l0`served, l0`steps, l1`idx, l1`ptr, l1`served, l1`steps
    ensures Mid(l0, l1, t + K, 0)
    ensures Holds(ar, m0, v, m, n0, c, K, 0, c')
  {
    c' := c;
    for k := 0 to K
      invariant Mid(l0, l1, t + k, 0) && Holds(ar, m0, v, m, n0, c, k, 0, c')
    {
      c' := Body(ar, mem, l0, l1, v, m0, t, m, n0, k, c, c');
    }
  }

  lemma InBlocks(p: Problem, n0: nat, u: nat)
    requires n0 < p.N / UNROLL && u < UNROLL
    ensures UNROLL * n0 + u < Split(p) <= p.N
  {}

  lemma FeedsA(bound: seq<nat>, stride: seq<nat>, p: Problem, t: nat, m: nat, n0: nat, k: nat, u: nat)
    requires Sane(p) && StreamsA(bound, stride, p) && m < p.M && n0 < p.N / UNROLL && k < p.K && u < UNROLL
    requires t == p.K * (n0 + (p.N / UNROLL) * m)
    ensures Walk(bound, stride, p.A, t + k) / 8 == Layout(p, Streamed).a(m, UNROLL * n0 + u, k)
  {
    AddressA(bound, stride, p, m, n0, k);
    InBlocks(p, n0, u);
  }

  lemma FeedsB(bound: seq<nat>, stride: seq<nat>, p: Problem, t: nat, m: nat, n0: nat, k: nat, u: nat)
    requires Sane(p) && StreamsB(bound, stride, p) && m < p.M && n0 < p.N / UNROLL && k < p.K && u < UNROLL
    requires t == p.K * (n0 + (p.N / UNROLL) * m)
    ensures |bound| == |stride| && Column(bound, stride, p.B, t, k, u) == Layout(p, Streamed).b(k, UNROLL * n0 + u)
  {
    AddressB(bound, stride, p, m, n0, k, u);
    InBlocks(p, n0, u);
  }

  /** The streams as configured feed the blocks in the order of the loops. */
  lemma StreamsFeed(l0: Lane, l1: Lane, p: Problem, t: nat, m: nat, n0: nat, k: nat)
    requires Sane(p) && StreamsA(l0.bound, l0.stride, p) && StreamsB(l1.bound, l1.stride, p) && l0.base == p.A && l1.base == p.B
    requires m < p.M && n0 < p.N / UNROLL && k < p.K && t == p.K * (n0 + (p.N / UNROLL) * m)
    ensures |l1.bound| == |l1.stride| && Feeds(l0, l1, Layout(p, Streamed), t, m, n0, k)
  {
    assert |l1.bound| == |l1.stride|;
    forall u: nat | u < UNROLL ensures FeedsPair(l0, l1, Layout(p, Streamed), t, m, n0, k, u) {
      FeedsA(l0.bound, l0.stride, p, t, m, n0, k, u);
      FeedsB(l1.bound, l1.stride, p, t, m, n0, k, u);
    }
  }

  /** While the sweep is at block n0 of row m, its operands are intact. */
  lemma BlockIntact<T>(ar: Arith<T>, m0: seq<T>, now: seq<T>, v: View, sc: Scale<T>, m: nat, n0: nat)
    requires Apart(v, |m0|) && m < v.M && UNROLL * n0 + UNROLL <= v.N && Swept(ar, m0, now, v, sc, m, UNROLL * n0)
    ensures Intact(now, m0, v, m, n0)
  {
    forall k: nat, j: nat | k < v.K && j < v.N ensures now[v.a(m, j, k)] == m0[v.a(m, j, k)] && now[v.b(k, j)] == m0[v.b(k, j)] {
      OperandsKept(ar, m0, now, v, sc, m, UNROLL * n0, m, j, k);
    }
  }

  /** The accumulators before the frep (lines 114 to 132). */
  method LoadBlock<T(==)>(ar: Arith<T>, mem: array<T>, p: Problem, ghost v: View, beta: bool, ghost m0: seq<T>, m: nat, n0: nat)
      returns (c: seq<T>)
    requires mem.Length == CELLS == |m0| && m < p.M && UNROLL * n0 + UNROLL <= p.N && LaidOut(v, p) && Apart(v, CELLS)
    requires Swept(ar, m0, mem[..], v, Flag(beta), m, UNROLL * n0)
    ensures |c| == UNROLL
    ensures forall j: nat :: j < UNROLL ==> c[j] == Start(ar, Flag(beta), m0[v.c(m, UNROLL * n0 + j)])
  {
    c := [];
    for u := 0 to UNROLL
      invariant |c| == u
      invariant forall j: nat :: j < u ==> c[j] == Start(ar, Flag(beta), m0[v.c(m, UNROLL * n0 + j)])
    {
      var x := ar.zero;
      if beta {
        x := OldEntry(ar, mem, p, v, m0, Flag(beta), m, UNROLL * n0, UNROLL * n0 + u);
      }
      c := c + [x];
    }
  }

  /** The stores after the frep (lines 147 to 154). */
  method StoreBlock<T(==)>(ghost ar: Arith<T>, mem: array<T>, p: Problem, ghost v: View, ghost m0: seq<T>, ghost sc: Scale<T>,
                           m: nat, n0: nat, c: seq<T>)
    requires mem.Length == CELLS == |m0| && m < p.M && UNROLL * n0 + UNROLL <= p.N && LaidOut(v, p) && Apart(v, CELLS)
    requires Swept(ar, m0, mem[..], v, sc, m, UNROLL * n0)
    requires |c| == UNROLL && forall u: nat :: u < UNROLL ==> c[u] == Entry(ar, m0, v, sc, m, UNROLL * n0 + u)
    modifies mem
    ensures Swept(ar, m0, mem[..], v, sc, m, UNROLL * n0 + UNROLL)
  {
    for u := 0 to UNROLL
      invariant Swept(ar, m0, mem[..], v, sc, m, UNROLL * n0 + u)
    {
      StoreEntry(ar, mem, p, v, m0, sc, m, UNROLL * n0 + u, c[u]);
    }
  }

  /** Where in the streams block n0 of row m starts: K elements a block, `blocks` blocks a row. */
  ghost predicate Starts(start: (nat, nat) -> nat, K: nat, blocks: nat) {
    && start(0, 0) == 0
    && (forall m: nat, n0: nat :: Follows(start, m, n0, K))
    && (forall m: nat :: RowFollows(start, m, blocks))
  }

  predicate Follows(start: (nat, nat) -> nat, m: nat, n0: nat, K: nat) { start(m, n0 + 1) == start(m, n0) + K }
  predicate RowFollows(start: (nat, nat) -> nat, m: nat, blocks: nat) { start(m + 1, 0) == start(m, blocks) }

  function BlockStart(K: nat, blocks: nat): (nat, nat) -> nat { (m: nat, n0: nat) => K * (n0 + blocks * m) }

  /** Every block of every row finds its operands in the streams. */
  ghost predicate FeedAll(l0: Lane, l1: Lane, v: View, start: (nat, nat) -> nat, blocks: nat)
    requires |l0.bound| == |l0.stride| && |l1.bound| == |l1.stride|
    reads l0`bound, l0`stride, l0`base, l1`bound, l1`stride, l1`base
  {
    forall m: nat, n0: nat, k: nat :: m < v.M && n0 < blocks && k < v.K ==> Feeds(l0, l1, v, start(m, n0), m, n0, k)
  }

  /** Eight columns: load or clear the accumulators, run the frep, store. */
  method Columns<T(==)>(ar: Arith<T>, mem: array<T>, p: Problem, ghost v: View, beta: bool, l0: Lane, l1: Lane,
                        ghost start: (nat, nat) -> nat, ghost blocks: nat, ghost m0: seq<T>, m: nat, n0: nat)
    requires mem.Length == CELLS == |m0| && m < p.M && n0 < blocks && UNROLL * blocks <= p.N && LaidOut(v, p) && Apart(v, CELLS)
    requires Swept(ar, m0, mem[..], v, Flag(beta), m, UNROLL * n0)
    requires Starts(start, p.K, blocks) && Mid(l0, l1, start(m, n0), 0) && FeedAll(l0, l1, v, start, blocks)
    modifies mem, l0`idx, l0`ptr, l0`served, l0`steps, l1`idx, l1`ptr, l1`served, l1`steps
    ensures Swept(ar, m0, mem[..], v, Flag(beta), m, UNROLL * (n0 + 1))
    ensures Mid(l0, l1, start(m, n0 + 1), 0)
  {
    assert Follows(start, m, n0, p.K);
    var c := LoadBlock(ar, mem, p, v, beta, m0, m, n0);
    BlockIntact(ar, m0, mem[..], v, Flag(beta), m, n0);
    var c' := Block(ar, mem, p.K, l0, l1, v, m0, start(m, n0), m, n0, c);
    assert forall u: nat :: u < UNROLL ==> c'[u] == Entry(ar, m0, v, Flag(beta), m, UNROLL * n0 + u);
    StoreBlock(ar, mem, p, v, m0, Flag(beta), m, n0, c');
  }

  /** The columns that do not fill a block; B is read as if transposed, whatever tb says (lines 160 to 174). */
  method Tail<T(==)>(ar: Arith<T>, mem: array<T>, p: Problem, ghost v: View, beta: bool, first: nat, ghost m0: seq<T>, m: nat)
    requires mem.Length == CELLS == |m0| && m < p.M && first <= p.N && LaidOut(v, p) && Apart(v, CELLS)
    requires Swept(ar, m0, mem[..], v, Flag(beta), m, first)
    requires forall n: nat :: n >= first ==> Reads(v, p, false, true, n)
    modifies mem
    ensures Swept(ar, m0, mem[..], v, Flag(beta), m, p.N)
  {
    for n := first to p.N
      invariant Swept(ar, m0, mem[..], v, Flag(beta), m, n)
    {
      TailEntry(ar, mem, p, v, beta, m0, m, n);
    }
  }

  method TailEntry<T(==)>(ar: Arith<T>, mem: array<T>, p: Problem, ghost v: View, beta: bool, ghost m0: seq<T>, m: nat, n: nat)
    requires mem.Length == CELLS == |m0| && m < p.M && n < p.N && Reads(v, p, false, true, n) && LaidOut(v, p) && Apart(v, CELLS)
    requires Swept(ar, m0, mem[..], v, Flag(beta), m, n)
    modifies mem
    ensures Swept(ar, m0, mem[..], v, Flag(beta), m, n + 1)
  {
    var c := ar.zero;
    if beta {
      c := OldEntry(ar, mem, p, v, m0, Flag(beta), m, n, n);
    }
    c := Accumulate(ar, mem, p, v, false, true, m0, Flag(beta), m, n, c);
    StoreEntry(ar, mem, p, v, m0, Flag(beta), m, n, c);
  }

  /** The streams are configured for p, whoever did it. */
  ghost predicate Prepared(p: Problem, l0: Lane, l1: Lane)
    reads l0, l1
  {
    && l0.Configured() && l1.Configured() && l0.repeat == UNROLL - 1 && l1.repeat == 0
    && StreamsA(l0.bound, l0.stride, p) && StreamsB(l1.bound, l1.stride, p)
  }

  /** The stream over A, configured once (lines 67 to 82). */
  method SetupA(p: Problem, l: Lane)
    requires Sane(p) && l.Configured()
    modifies l
    ensures l.Configured() && l.repeat == UNROLL - 1 && StreamsA(l.bound, l.stride, p)
  {
    if p.ta {
      l.Loop3d(p.K, p.N / UNROLL, p.M, Wrap(8 * p.ldA), 0, 8 * 8);
    } else {
      l.Loop3d(p.K, p.N / UNROLL, p.M, 8, 0, Wrap(8 * p.ldA));
    }
    l.Repeat(UNROLL);
    WrapSame(UNROLL - 1);
    WrapSame(8);
    WrapSame(8 * 8);
  }

  /** The stream over B (lines 85 to 98). Its repeat register is never written. */
  method SetupB(p: Problem, l: Lane)
    requires Sane(p) && l.Configured()
    modifies l
    ensures l.Configured() && l.repeat == old(l.repeat) && StreamsB(l.bound, l.stride, p)
  {
    if p.tb {
      l.Loop4d(UNROLL, p.K, p.N / UNROLL, p.M, Wrap(8 * p.ldB), 8, Wrap(8 * p.ldB * UNROLL), 0);
    } else {
      l.Loop4d(UNROLL, p.K, p.N / UNROLL, p.M, 8, Wrap(8 * p.ldB), 8 * UNROLL, 0);
    }
    WrapSame(UNROLL - 1);
  }

  method Setup(p: Problem, l0: Lane, l1: Lane)
    requires Sane(p) && l0 != l1 && l0.Configured() && l1.Configured() && l1.repeat == 0
    modifies l0, l1
    ensures Prepared(p, l0, l1)
  {
    SetupA(p, l0);
    SetupB(p, l1);
  }

  /** The blocks of one row. */
  method RowBlocks<T(==)>(ar: Arith<T>, mem: array<T>, p: Problem, ghost v: View, blocks: nat, beta: bool, l0: Lane, l1: Lane,
                          ghost start: (nat, nat) -> nat, ghost m0: seq<T>, m: nat)
    requires mem.Length == CELLS == |m0| && m < p.M && UNROLL * blocks <= p.N && LaidOut(v, p) && Apart(v, CELLS)
    requires Swept(ar, m0, mem[..], v, Flag(beta), m, 0)
    requires Starts(start, p.K, blocks) && Mid(l0, l1, start(m, 0), 0) && FeedAll(l0, l1, v, start, blocks)
    modifies mem, l0`idx, l0`ptr, l0`served, l0`steps, l1`idx, l1`ptr, l1`served, l1`steps
    ensures Swept(ar, m0, mem[..], v, Flag(beta), m, UNROLL * blocks)
    ensures Mid(l0, l1, start(m, blocks), 0)
  {
    for n0 := 0 to blocks
      invariant Swept(ar, m0, mem[..], v, Flag(beta), m, UNROLL * n0)
      invariant Mid(l0, l1, start(m, n0), 0)
    {
      Columns(ar, mem, p, v, beta, l0, l1, start, blocks, m0, m, n0);
    }
  }

  /** All rows, with the streams started and feeding. */
  method Rows<T(==)>(ar: Arith<T>, mem: array<T>, p: Problem, ghost v: View, blocks: nat, beta: bool, l0: Lane, l1: Lane,
                     ghost start: (nat, nat) -> nat)
    requires mem.Length == CELLS && UNROLL * blocks <= p.N && LaidOut(v, p) && Apart(v, CELLS)
    requires Starts(start, p.K, blocks) && Mid(l0, l1, 0, 0) && FeedAll(l0, l1, v, start, blocks)
    requires forall n: nat :: n >= UNROLL * blocks ==> Reads(v, p, false, true, n)
    modifies mem, l0`idx, l0`ptr, l0`served, l0`steps, l1`idx, l1`ptr, l1`served, l1`steps
    ensures mem[..] == Gemm(ar, old(mem[..]), v, Flag(beta))
  {
    ghost var m0 := mem[..];
    SweptStart(ar, m0, v, Flag(beta));
    for m := 0 to p.M
      invariant Swept(ar, m0, mem[..], v, Flag(beta), m, 0)
      invariant Mid(l0, l1, start(m, 0), 0)
    {
      assert RowFollows(start, m, blocks);
      RowBlocks(ar, mem, p, v, blocks, beta, l0, l1, start, m0, m);
      Tail(ar, mem, p, v, beta, UNROLL * blocks, m0, m);
      SweptRow(ar, m0, mem[..], v, Flag(beta), m);
    }
    SweptEnd(ar, m0, mem[..], v, Flag(beta));
  }

  lemma PreparedFeeds(p: Problem, l0: Lane, l1: Lane, start: (nat, nat) -> nat)
    requires Sane(p) && Prepared(p, l0, l1) && l0.base == p.A && l1.base == p.B
    requires forall m: nat, n0: nat :: start(m, n0) == p.K * (n0 + (p.N / UNROLL) * m)
    ensures |l1.bound| == |l1.stride| && FeedAll(l0, l1, Layout(p, Streamed), start, p.N / UNROLL)
  {
    assert |l1.bound| == |l1.stride|;
    forall m: nat, n0: nat, k: nat | m < p.M && n0 < p.N / UNROLL && k < p.K
      ensures Feeds(l0, l1, Layout(p, Streamed), start(m, n0), m, n0, k)
    {
      StreamsFeed(l0, l1, p, start(m, n0), m, n0, k);
    }
  }

  lemma StartsNest(K: nat, blocks: nat, start: (nat, nat) -> nat)
    requires forall m: nat, n0: nat :: start(m, n0) == K * (n0 + blocks * m)
    ensures Starts(start, K, blocks)
  {
    forall m: nat, n0: nat ensures Follows(start, m, n0, K) {
      assert K * (n0 + 1 + blocks * m) == K * (n0 + blocks * m) + K;
    }
    forall m: nat ensures RowFollows(start, m, blocks) {
      assert blocks * (m + 1) == blocks + blocks * m;
    }
    assert start(0, 0) == K * (0 + blocks * 0);
  }

  /** The streamed kernel, for any number of columns. */
  method Opt<T(==)>(ar: Arith<T>, mem: array<T>, p: Problem, beta: bool, setup: bool, l0: Lane, l1: Lane)
    requires mem.Length == CELLS && Sane(p) && p.K > 0 && Apart(Layout(p, Streamed), CELLS)
    requires l0 != l1 && l0.Configured() && l1.Configured() && l1.repeat == 0
    requires !setup ==> Prepared(p, l0, l1)
    modifies mem, l0, l1
    ensures mem[..] == Gemm(ar, old(mem[..]), Layout(p, Streamed), Flag(beta))
    ensures Prepared(p, l0, l1)
  {
    if setup {
      Setup(p, l0, l1);
    }
    l0.Read(4, p.A);
    l1.Read(4, p.B);
    var blocks := p.N / UNROLL;
    ghost var start := BlockStart(p.K, blocks);
    StartsNest(p.K, blocks, start);
    PreparedFeeds(p, l0, l1, start);
    TailReads(p);
    Rows(ar, mem, p, Layout(p, Streamed), blocks, beta, l0, l1, start);
  }
}
