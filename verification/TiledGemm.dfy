/** The multi-cluster tiled matrix multiply: tiles of A, B and C are copied into a cluster's memory, every compute
    core multiplies its own rows of the tile with the naive kernel, partial results stay in place over the k tiles,
    and the finished tile is copied back. Arrays of elements, no element type assumed. */
module TiledGemm {
  import opened MatMul
  import opened Arithmetic

  // ----- tile copies

  ghost predicate Missed(d: (nat, nat) -> nat, rows: nat, cols: nat, w: nat) {
    forall r: nat, q: nat :: r < rows && q < cols ==> d(r, q) != w
  }

  ghost predicate InjectiveTo(d: (nat, nat) -> nat, rows: nat, cols: nat, size: nat) {
    && (forall r: nat, q: nat :: r < rows && q < cols ==> d(r, q) < size)
    && (forall r: nat, q: nat, r': nat, q': nat ::
          r < rows && q < cols && r' < rows && q' < cols && d(r, q) == d(r', q') ==> r == r' && q == q')
  }

  /** A two-dimensional transfer: row by row, element by element (snrt_dma_start_2d). */
  method CopyTile<T>(dst: array<T>, src: array<T>, rows: nat, cols: nat, d: (nat, nat) -> nat, s: (nat, nat) -> nat)
    requires dst != src && InjectiveTo(d, rows, cols, dst.Length)
    requires forall r: nat, q: nat :: r < rows && q < cols ==> s(r, q) < src.Length
    modifies dst
    ensures forall r: nat, q: nat :: r < rows && q < cols ==> dst[d(r, q)] == src[s(r, q)]
    ensures forall w: nat :: w < dst.Length && Missed(d, rows, cols, w) ==> dst[w] == old(dst[w])
  {
    for r := 0 to rows
      invariant forall i: nat, j: nat :: i < r && j < cols ==> dst[d(i, j)] == src[s(i, j)]
      invariant forall w: nat :: w < dst.Length && Missed(d, rows, cols, w) ==> dst[w] == old(dst[w])
    {
      for q := 0 to cols
        invariant forall i: nat, j: nat :: i < rows && j < cols && Before(i, j, r, q) ==> dst[d(i, j)] == src[s(i, j)]
        invariant forall w: nat :: w < dst.Length && Missed(d, rows, cols, w) ==> dst[w] == old(dst[w])
      {
        dst[d(r, q)] := src[s(r, q)];
      }
    }
  }

  /** The inner product of the naive kernel. */
  method KernelEntry<T(==)>(ar: Arith<T>, mem: array<T>, v: View, ghost m0: seq<T>, beta: T, m: nat, n: nat) returns (c0: T)
    requires |m0| == mem.Length && Apart(v, mem.Length) && m < v.M && n < v.N
    requires Swept(ar, m0, mem[..], v, Times(beta), m, n)
    ensures c0 == Entry(ar, m0, v, Times(beta), m, n)
  {
    EntryKept(ar, m0, mem[..], v, Times(beta), m, n, n);
    var c := mem[v.c(m, n)];
    assert c == mem[..][v.c(m, n)];
    var start := if beta != ar.zero then ar.mul(c, beta) else ar.zero;
    c0 := start;
    for k := 0 to v.K
      invariant c0 == Sum(ar, m0, v, m, n, start, k)
    {
      OperandsKept(ar, m0, mem[..], v, Times(beta), m, n, m, n, k);
      assert mem[v.a(m, n, k)] == mem[..][v.a(m, n, k)] && mem[v.b(k, n)] == mem[..][v.b(k, n)];
      c0 := ar.mac(mem[v.a(m, n, k)], mem[v.b(k, n)], c0);
    }
  }

  /** The naive kernel on any matrices in one memory. */
  method Kernel<T(==)>(ar: Arith<T>, mem: array<T>, v: View, beta: T)
    requires Apart(v, mem.Length)
    modifies mem
    ensures mem[..] == Gemm(ar, old(mem[..]), v, Times(beta))
  {
    ghost var m0 := mem[..];
    SweptStart(ar, m0, v, Times(beta));
    for m := 0 to v.M
      invariant Swept(ar, m0, mem[..], v, Times(beta), m, 0)
    {
      for n := 0 to v.N
        invariant Swept(ar, m0, mem[..], v, Times(beta), m, n)
      {
        var c0 := KernelEntry(ar, mem, v, m0, beta, m, n);
        ghost var was := mem[..];
        mem[v.c(m, n)] := c0;
        SweptNext(ar, m0, was, v, Times(beta), m, n, mem[..]);
      }
      SweptRow(ar, m0, mem[..], v, Times(beta), m);
    }
    SweptEnd(ar, m0, mem[..], v, Times(beta));
  }

  // ----- the plan

  /** The tiling: numbers of tiles, tile sizes, the widths of A and of B and C, compute cores, rows per core, the rows of a
      tile they take together and which of these a core's row is; the cells of a tile in a cluster's memory; and the
      elements of the whole matrices, rows and columns given as (tile, offset). */
  datatype Plan = Plan(
    mTiles: nat, nTiles: nat, kTiles: nat, fm: nat, fn: nat, fk: nat, K: nat, N: nat,
    cores: nat, share: nat, rows: nat, row: (nat, nat) -> nat,
    la: (nat, nat) -> nat, lb: (nat, nat) -> nat, lc: (nat, nat) -> nat,
    ga: (nat, nat, nat) -> nat, gb: (nat, nat, nat) -> nat, gc: (nat, nat, nat, nat) -> nat)

  /** A tile's matrices in the cluster's memory. */
  function Tile(p: Plan): View { View(p.fm, p.fn, p.fk, (i: nat, j: nat, l: nat) => p.la(i, l), p.lb, p.lc) }

  /** The rows of the tile that core id works on. */
  function CoreView(p: Plan, id: nat): View {
    View(p.share, p.fn, p.fk,
         (i: nat, n: nat, k: nat) => p.la(p.row(id, i), k), p.lb, (i: nat, n: nat) => p.lc(p.row(id, i), n))
  }

  /** The first `rows` rows of the tile are each one row of one core; the others are nobody's. */
  ghost predicate Shares(p: Plan) {
    && p.rows <= p.fm
    && (forall id: nat, r: nat :: id < p.cores && r < p.share ==> p.row(id, r) < p.rows)
    && (forall id: nat, r: nat, id': nat, r': nat ::
          (id < p.cores && r < p.share && id' < p.cores && r' < p.share && p.row(id, r) == p.row(id', r')) ==> id == id' && r == r')
    && (forall i: nat :: i < p.rows ==> Owned(p, i))
  }

  ghost predicate Owned(p: Plan, i: nat) { exists id: nat, r: nat :: id < p.cores && r < p.share && p.row(id, r) == i }

  /** The tile's three matrices have cells of their own, and the cores share its rows. */
  ghost predicate Local(p: Plan, local: nat) {
    var fits :=
      && Apart(Tile(p), local) && Shares(p)
      && InjectiveTo(p.la, p.fm, p.fk, local) && InjectiveTo(p.lb, p.fk, p.fn, local)
      && (forall i: nat, k: nat, k': nat, n: nat :: i < p.fm && k < p.fk && k' < p.fk && n < p.fn ==> p.la(i, k) != p.lb(k', n));
    fits
  }

  ghost predicate Reads(p: Plan, aSize: nat, bSize: nat) {
    var fits :=
      && p.kTiles > 0 && ReadsTiles(p)
      && (forall mt: nat, i: nat, x: nat :: mt < p.mTiles && i < p.fm && x < p.kTiles * p.fk ==> p.ga(mt, i, x) < aSize)
      && (forall x: nat, nt: nat, j: nat :: x < p.kTiles * p.fk && nt < p.nTiles && j < p.fn ==> p.gb(x, nt, j) < bSize);
    fits
  }

  predicate IsEntry(p: Plan, mt: nat, i: nat, nt: nat, j: nat) { mt < p.mTiles && i < p.fm && nt < p.nTiles && j < p.fn }

  /** A and B are stored row by row, ... */
  ghost predicate RowMajorIn(p: Plan) {
    && (forall m: nat, r: nat, l: nat :: p.ga(m, r, l) == (m * p.fm + r) * p.K + l)
    && (forall l: nat, n: nat, q: nat :: p.gb(l, n, q) == l * p.N + (n * p.fn + q))
  }

  /** ... and C. */
  ghost predicate RowMajorOut(p: Plan) {
    forall m: nat, r: nat, n: nat, q: nat :: p.gc(m, r, n, q) == (m * p.fm + r) * p.N + (n * p.fn + q)
  }

  /** The offsets that the DMA functions compute are those of the tiles' elements. */
  ghost predicate ReadsTiles(p: Plan) {
    && (forall mt: nat, kt: nat, i: nat, l: nat :: TileCells(mt, kt, p.fm, p.fk, p.K)(i, l) == p.ga(mt, i, At(p, kt, l)))
    && (forall kt: nat, nt: nat, l: nat, j: nat :: TileCells(kt, nt, p.fk, p.fn, p.N)(l, j) == p.gb(At(p, kt, l), nt, j))
  }

  ghost predicate WritesTiles(p: Plan) {
    forall mt: nat, nt: nat, i: nat, j: nat :: TileCells(mt, nt, p.fm, p.fn, p.N)(i, j) == p.gc(mt, i, nt, j)
  }

  /** Every entry of C has an element of its own. */
  ghost predicate Writes(p: Plan, cSize: nat) {
    var fits :=
      && WritesTiles(p)
      && (forall mt: nat, i: nat, nt: nat, j: nat :: IsEntry(p, mt, i, nt, j) ==> p.gc(mt, i, nt, j) < cSize)
      && (forall mt: nat, i: nat, nt: nat, j: nat, mt': nat, i': nat, nt': nat, j': nat ::
            (IsEntry(p, mt, i, nt, j) && IsEntry(p, mt', i', nt', j') && p.gc(mt, i, nt, j) == p.gc(mt', i', nt', j'))
            ==> mt == mt' && i == i' && nt == nt' && j == j');
    fits
  }

  /** An entry of the product with the first x products accumulated in order. */
  ghost function Acc<T>(ar: Arith<T>, a: seq<T>, b: seq<T>, p: Plan, mt: nat, i: nat, nt: nat, j: nat, start: T, x: nat): T
    requires Reads(p, |a|, |b|) && IsEntry(p, mt, i, nt, j) && x <= p.kTiles * p.fk
  {
    if x == 0 then start
    else ar.mac(a[p.ga(mt, i, x - 1)], b[p.gb(x - 1, nt, j)], Acc(ar, a, b, p, mt, i, nt, j, start, x - 1))
  }

  // ----- one step of the k loop

  /** The position of product l of k tile kt. */
  function At(p: Plan, kt: nat, l: nat): nat { kt * p.fk + l }

  lemma AtBound(p: Plan, kt: nat, l: nat)
    requires kt < p.kTiles && l <= p.fk
    ensures At(p, kt, l) <= p.kTiles * p.fk
    ensures l < p.fk ==> At(p, kt, l) < p.kTiles * p.fk
  {
    GroupFits(kt, p.kTiles, p.fk);
  }

  /** The tiles of A and B for (mt, kt, nt) are in the cluster's memory. */
  ghost predicate Loaded<T>(mem: seq<T>, a: seq<T>, b: seq<T>, p: Plan, mt: nat, kt: nat, nt: nat)
    requires Local(p, |mem|) && Reads(p, |a|, |b|) && mt < p.mTiles && kt < p.kTiles && nt < p.nTiles
  {
    && (forall i: nat, l: nat :: i < p.fm && l < p.fk ==> (AtBound(p, kt, l); mem[p.la(i, l)] == a[p.ga(mt, i, At(p, kt, l))]))
    && (forall l: nat, j: nat :: l < p.fk && j < p.fn ==> (AtBound(p, kt, l); mem[p.lb(l, j)] == b[p.gb(At(p, kt, l), nt, j)]))
  }

  /** The C tile holds, for every entry in the cores' rows, the products accumulated so far on top of start(i, j). */
  ghost predicate Partial<T>(ar: Arith<T>, mem: seq<T>, a: seq<T>, b: seq<T>, p: Plan, mt: nat, nt: nat, start: (nat, nat) -> T, x: nat)
    requires Local(p, |mem|) && Reads(p, |a|, |b|) && mt < p.mTiles && nt < p.nTiles && x <= p.kTiles * p.fk
  {
    forall i: nat, j: nat :: i < p.rows && j < p.fn ==> mem[p.lc(i, j)] == Acc(ar, a, b, p, mt, i, nt, j, start(i, j), x)
  }

  /** The other rows of the C tile are as they were loaded. */
  ghost predicate Spare<T>(mem: seq<T>, c: seq<T>, p: Plan, mt: nat, nt: nat)
    requires Local(p, |mem|) && Writes(p, |c|) && mt < p.mTiles && nt < p.nTiles
  {
    forall i: nat, j: nat :: p.rows <= i < p.fm && j < p.fn ==> IsEntry(p, mt, i, nt, j) && mem[p.lc(i, j)] == c[p.gc(mt, i, nt, j)]
  }

  ghost predicate SpareKept<T>(mem: seq<T>, m0: seq<T>, p: Plan)
    requires |mem| == |m0| && Local(p, |mem|)
  {
    forall i: nat, j: nat :: p.rows <= i < p.fm && j < p.fn ==> mem[p.lc(i, j)] == m0[p.lc(i, j)]
  }

  /** Product l of the tile is product kt * fk + l of the whole row and column. */
  lemma OneProduct<T>(mem: seq<T>, a: seq<T>, b: seq<T>, p: Plan, mt: nat, kt: nat, nt: nat, id: nat, r: nat, j: nat, l: nat)
    requires Local(p, |mem|) && Reads(p, |a|, |b|) && mt < p.mTiles && kt < p.kTiles && nt < p.nTiles
    requires Loaded(mem, a, b, p, mt, kt, nt) && Apart(CoreView(p, id), |mem|)
    requires id < p.cores && r < p.share && j < p.fn && l < p.fk
    ensures var x := At(p, kt, l);
            && At(p, kt, l + 1) == x + 1 && x < p.kTiles * p.fk
            && mem[CoreView(p, id).a(r, j, l)] == a[p.ga(mt, p.row(id, r), x)] && mem[CoreView(p, id).b(l, j)] == b[p.gb(x, nt, j)]
  {
    AtBound(p, kt, l);
  }

  /** The accumulation within k tile kt. */
  ghost function AccTile<T>(ar: Arith<T>, a: seq<T>, b: seq<T>, p: Plan, mt: nat, kt: nat, i: nat, nt: nat, j: nat, start: T): nat -> T
    requires Reads(p, |a|, |b|) && IsEntry(p, mt, i, nt, j) && kt < p.kTiles
  {
    (l: nat) => if l <= p.fk then AtBound(p, kt, l); Acc(ar, a, b, p, mt, i, nt, j, start, At(p, kt, l)) else start
  }

  /** A sum over a loaded tile continues the accumulation. */
  lemma SumContinues<T>(ar: Arith<T>, mem: seq<T>, a: seq<T>, b: seq<T>, p: Plan, mt: nat, kt: nat, nt: nat, id: nat, r: nat, j: nat, start: T, l: nat)
    requires Local(p, |mem|) && Reads(p, |a|, |b|) && mt < p.mTiles && kt < p.kTiles && nt < p.nTiles
    requires Loaded(mem, a, b, p, mt, kt, nt) && Apart(CoreView(p, id), |mem|)
    requires id < p.cores && r < p.share && j < p.fn && l <= p.fk && At(p, kt, 0) <= p.kTiles * p.fk
    ensures At(p, kt, l) <= p.kTiles * p.fk
    ensures var i := p.row(id, r);
            Sum(ar, mem, CoreView(p, id), r, j, Acc(ar, a, b, p, mt, i, nt, j, start, At(p, kt, 0)), l)
            == Acc(ar, a, b, p, mt, i, nt, j, start, At(p, kt, l))
  {
    var acc := AccTile(ar, a, b, p, mt, kt, p.row(id, r), nt, j, start);
    AtBound(p, kt, l);
    forall x: nat | x < p.fk ensures Adds(ar, mem, CoreView(p, id), r, j, acc, x) {
      OneProduct(mem, a, b, p, mt, kt, nt, id, r, j, x);
    }
    SumIs(ar, mem, CoreView(p, id), r, j, acc, l);
  }

  lemma CoreApart(p: Plan, id: nat, local: nat)
    requires Local(p, local) && id < p.cores
    ensures Apart(CoreView(p, id), local)
  {
    var v := CoreView(p, id);
    assert forall i: nat, n: nat :: i < p.share && n < p.fn ==> v.c(i, n) == Tile(p).c(p.row(id, i), n);
    assert forall i: nat, n: nat, k: nat :: i < p.share && k < p.fk ==> v.a(i, n, k) == Tile(p).a(p.row(id, i), n, k);
    assert forall k: nat, n: nat :: v.b(k, n) == Tile(p).b(k, n);
  }

  /** A cell of the C tile is none of the A tile. */
  lemma TileOperand(p: Plan, local: nat, i: nat, j: nat, m: nat, l: nat)
    requires Local(p, local) && i < p.fm && j < p.fn && m < p.fm && l < p.fk
    ensures p.lc(i, j) != p.la(m, l)
  {
    var t := Tile(p);
    assert t.c(i, j) == p.lc(i, j) && t.a(m, j, l) == p.la(m, l);
  }

  lemma CoreOutsideA(p: Plan, id: nat, local: nat, i: nat, l: nat)
    requires Local(p, local) && id < p.cores && i < p.fm && l < p.fk
    ensures Outside(CoreView(p, id), p.la(i, l))
  {
    var v := CoreView(p, id);
    forall r: nat, j: nat | r < v.M && j < v.N ensures v.c(r, j) != p.la(i, l) {
      TileOperand(p, local, p.row(id, r), j, i, l);
    }
  }

  /** Cells another core writes, and the cells of A and B, are outside a core's part of C. */
  lemma CoreOutside(p: Plan, id: nat, local: nat)
    requires Local(p, local) && id < p.cores
    ensures forall i: nat, l: nat :: i < p.fm && l < p.fk ==> Outside(CoreView(p, id), p.la(i, l))
    ensures forall l: nat, j: nat :: l < p.fk && j < p.fn ==> Outside(CoreView(p, id), p.lb(l, j))
    ensures forall id': nat, r: nat, j: nat :: id' < p.cores && id' != id && r < p.share && j < p.fn ==>
              Outside(CoreView(p, id), p.lc(p.row(id', r), j))
    ensures forall i: nat, j: nat :: p.rows <= i < p.fm && j < p.fn ==> Outside(CoreView(p, id), p.lc(i, j))
  {
    var t := Tile(p);
    assert forall i: nat, j: nat :: t.c(i, j) == p.lc(i, j);
    assert forall l: nat, j: nat :: t.b(l, j) == p.lb(l, j);
    forall i: nat, l: nat | i < p.fm && l < p.fk ensures Outside(CoreView(p, id), p.la(i, l)) {
      CoreOutsideA(p, id, local, i, l);
    }
  }

  /** Entries of the C tile that the cores before id have brought from x to the end of k tile kt; the others are as in m0. */
  ghost predicate Progress<T>(ar: Arith<T>, mem: seq<T>, m0: seq<T>, a: seq<T>, b: seq<T>, p: Plan, mt: nat, kt: nat, nt: nat,
                              start: (nat, nat) -> T, id: nat)
    requires |mem| == |m0| && Local(p, |mem|) && Reads(p, |a|, |b|) && mt < p.mTiles && kt < p.kTiles && nt < p.nTiles
    requires At(p, kt, p.fk) <= p.kTiles * p.fk
  {
    && (forall i: nat, l: nat :: i < p.fm && l < p.fk ==> mem[p.la(i, l)] == m0[p.la(i, l)])
    && (forall l: nat, j: nat :: l < p.fk && j < p.fn ==> mem[p.lb(l, j)] == m0[p.lb(l, j)])
    && SpareKept(mem, m0, p)
    && (forall d: nat, r: nat, j: nat :: d < p.cores && r < p.share && j < p.fn ==>
          mem[p.lc(p.row(d, r), j)] ==
            if d < id then Acc(ar, a, b, p, mt, p.row(d, r), nt, j, start(p.row(d, r), j), At(p, kt, p.fk))
            else m0[p.lc(p.row(d, r), j)])
  }

  /** The scaled old contents of the C tile are what has been accumulated before k tile kt. */
  ghost predicate Ready<T>(ar: Arith<T>, m0: seq<T>, a: seq<T>, b: seq<T>, p: Plan, mt: nat, kt: nat, nt: nat, beta: T, start: (nat, nat) -> T)
    requires Local(p, |m0|) && Reads(p, |a|, |b|) && mt < p.mTiles && kt < p.kTiles && nt < p.nTiles && At(p, kt, 0) <= p.kTiles * p.fk
  {
    forall i: nat, j: nat :: i < p.rows && j < p.fn ==>
      Start(ar, Times(beta), m0[p.lc(i, j)]) == Acc(ar, a, b, p, mt, i, nt, j, start(i, j), At(p, kt, 0))
  }

  lemma CoreStep<T>(ar: Arith<T>, before: seq<T>, after: seq<T>, m0: seq<T>, a: seq<T>, b: seq<T>, p: Plan, mt: nat, kt: nat, nt: nat,
                    beta: T, start: (nat, nat) -> T, id: nat)
    requires |before| == |after| == |m0| && Local(p, |m0|) && Reads(p, |a|, |b|) && mt < p.mTiles && kt < p.kTiles && nt < p.nTiles
    requires At(p, kt, 0) <= At(p, kt, p.fk) <= p.kTiles * p.fk && id < p.cores && Apart(CoreView(p, id), |m0|)
    requires Loaded(m0, a, b, p, mt, kt, nt) && Ready(ar, m0, a, b, p, mt, kt, nt, beta, start)
    requires Progress(ar, before, m0, a, b, p, mt, kt, nt, start, id)
    requires Multiplied(ar, before, after, CoreView(p, id), Times(beta))
    ensures Progress(ar, after, m0, a, b, p, mt, kt, nt, start, id + 1)
  {
    var v := CoreView(p, id);
    CoreOutside(p, id, |m0|);
    assert Loaded(before, a, b, p, mt, kt, nt);
    forall r: nat, j: nat | r < p.share && j < p.fn
      ensures after[p.lc(p.row(id, r), j)] == Acc(ar, a, b, p, mt, p.row(id, r), nt, j, start(p.row(id, r), j), At(p, kt, p.fk))
    {
      var i := p.row(id, r);
      assert after[v.c(r, j)] == Entry(ar, before, v, Times(beta), r, j);
      SumContinues(ar, before, a, b, p, mt, kt, nt, id, r, j, start(i, j), p.fk);
    }
  }

  /** The compute phase: every core multiplies its rows of the tile (they write disjoint cells and no operand, so
      their order does not matter). */
  method Compute<T(==)>(ar: Arith<T>, mem: array<T>, p: Plan, beta: T, ghost a: seq<T>, ghost b: seq<T>, ghost mt: nat, ghost kt: nat, ghost nt: nat,
                        ghost start: (nat, nat) -> T)
    requires Local(p, mem.Length) && Reads(p, |a|, |b|) && mt < p.mTiles && kt < p.kTiles && nt < p.nTiles
    requires At(p, kt, 0) <= At(p, kt, p.fk) <= p.kTiles * p.fk
    requires Loaded(mem[..], a, b, p, mt, kt, nt) && Ready(ar, mem[..], a, b, p, mt, kt, nt, beta, start)
    modifies mem
    ensures Partial(ar, mem[..], a, b, p, mt, nt, start, At(p, kt, p.fk)) && SpareKept(mem[..], old(mem[..]), p)
  {
    ghost var m0 := mem[..];
    for id := 0 to p.cores
      invariant Progress(ar, mem[..], m0, a, b, p, mt, kt, nt, start, id)
    {
      ghost var before := mem[..];
      var v := CoreView(p, id);
      CoreApart(p, id, mem.Length);
      Kernel(ar, mem, v, beta);
      GemmMeaning(ar, before, v, Times(beta));
      CoreStep(ar, before, mem[..], m0, a, b, p, mt, kt, nt, beta, start, id);
    }
    AllRows(ar, mem[..], m0, a, b, p, mt, kt, nt, start);
  }

  lemma AllRows<T>(ar: Arith<T>, mem: seq<T>, m0: seq<T>, a: seq<T>, b: seq<T>, p: Plan, mt: nat, kt: nat, nt: nat, start: (nat, nat) -> T)
    requires |mem| == |m0| && Local(p, |mem|) && Reads(p, |a|, |b|) && mt < p.mTiles && kt < p.kTiles && nt < p.nTiles
    requires At(p, kt, p.fk) <= p.kTiles * p.fk && Progress(ar, mem, m0, a, b, p, mt, kt, nt, start, p.cores)
    ensures Partial(ar, mem, a, b, p, mt, nt, start, At(p, kt, p.fk))
  {
    forall i: nat, j: nat | i < p.rows && j < p.fn
      ensures mem[p.lc(i, j)] == Acc(ar, a, b, p, mt, i, nt, j, start(i, j), At(p, kt, p.fk))
    {
      assert Owned(p, i);
      var id: nat, r: nat :| id < p.cores && r < p.share && p.row(id, r) == i;
      assert mem[p.lc(p.row(id, r), j)] == Acc(ar, a, b, p, mt, p.row(id, r), nt, j, start(p.row(id, r), j), At(p, kt, p.fk));
    }
  }

  ghost predicate IsOne<T(!new)>(ar: Arith<T>, one: T) { one != ar.zero && forall x: T :: ar.mul(x, one) == x }

  lemma LocalMissed(p: Plan, local: nat)
    requires Local(p, local)
    ensures forall i: nat, j: nat :: i < p.fm && j < p.fn ==> Missed(p.la, p.fm, p.fk, p.lc(i, j)) && Missed(p.lb, p.fk, p.fn, p.lc(i, j))
    ensures forall i: nat, l: nat :: i < p.fm && l < p.fk ==> Missed(p.lb, p.fk, p.fn, p.la(i, l)) && Missed(p.lc, p.fm, p.fn, p.la(i, l))
    ensures forall l: nat, j: nat :: l < p.fk && j < p.fn ==> Missed(p.lc, p.fm, p.fn, p.lb(l, j))
    ensures InjectiveTo(p.lc, p.fm, p.fn, local)
  {
    var t := Tile(p);
    forall i: nat, j: nat, m: nat, l: nat | i < p.fm && j < p.fn && m < p.fm && l < p.fk ensures p.lc(i, j) != p.la(m, l) {
      TileOperand(p, local, i, j, m, l);
    }
    assert forall i: nat, j: nat :: t.c(i, j) == p.lc(i, j);
    assert forall l: nat, j: nat :: t.b(l, j) == p.lb(l, j);
  }

  /** The DMA loads of the A and B tiles; the C tile is left alone. */
  method LoadOperands<T>(mem: array<T>, a: array<T>, b: array<T>, p: Plan, mt: nat, kt: nat, nt: nat)
    requires mem != a && mem != b && Local(p, mem.Length) && Reads(p, a.Length, b.Length) && mt < p.mTiles && kt < p.kTiles && nt < p.nTiles
    modifies mem
    ensures Loaded(mem[..], a[..], b[..], p, mt, kt, nt)
    ensures forall i: nat, j: nat :: i < p.fm && j < p.fn ==> mem[p.lc(i, j)] == old(mem[p.lc(i, j)])
  {
    LocalMissed(p, mem.Length);
    forall l: nat | l < p.fk ensures At(p, kt, l) < p.kTiles * p.fk { AtBound(p, kt, l); }
    CopyTile(mem, a, p.fm, p.fk, p.la, TileCells(mt, kt, p.fm, p.fk, p.K));
    CopyTile(mem, b, p.fk, p.fn, p.lb, TileCells(kt, nt, p.fk, p.fn, p.N));
  }

  /** The DMA load of the C tile. */
  method LoadResult<T>(mem: array<T>, c: array<T>, p: Plan, mt: nat, nt: nat)
    requires mem != c && Local(p, mem.Length) && Writes(p, c.Length) && mt < p.mTiles && nt < p.nTiles
    modifies mem
    ensures forall i: nat, j: nat :: i < p.fm && j < p.fn ==> mem[p.lc(i, j)] == c[p.gc(mt, i, nt, j)]
    ensures forall i: nat, l: nat :: i < p.fm && l < p.fk ==> mem[p.la(i, l)] == old(mem[p.la(i, l)])
    ensures forall l: nat, j: nat :: l < p.fk && j < p.fn ==> mem[p.lb(l, j)] == old(mem[p.lb(l, j)])
  {
    LocalMissed(p, mem.Length);
    assert forall i: nat, j: nat :: i < p.fm && j < p.fn ==> IsEntry(p, mt, i, nt, j);
    CopyTile(mem, c, p.fm, p.fn, p.lc, TileCells(mt, nt, p.fm, p.fn, p.N));
  }

  /** Old entries of C in tile (mt, nt), scaled by beta. */
  ghost function Scaled<T>(ar: Arith<T>, beta: T, c: seq<T>, p: Plan, mt: nat, nt: nat): (nat, nat) -> T
    requires Writes(p, |c|) && mt < p.mTiles && nt < p.nTiles && c != []
  {
    (i: nat, j: nat) => if IsEntry(p, mt, i, nt, j) then Start(ar, Times(beta), c[p.gc(mt, i, nt, j)]) else c[0]
  }

  /** One iteration of the k loop: load, compute. */
  method KTile<T(==,!new)>(ar: Arith<T>, mem: array<T>, a: array<T>, b: array<T>, c: array<T>, p: Plan, beta: T, one: T, mt: nat, kt: nat, nt: nat)
    requires mem != a && mem != b && mem != c && IsOne(ar, one) && c.Length > 0
    requires Local(p, mem.Length) && Reads(p, a.Length, b.Length) && Writes(p, c.Length) && mt < p.mTiles && kt < p.kTiles && nt < p.nTiles
    requires At(p, kt, 0) <= At(p, kt, p.fk) <= p.kTiles * p.fk
    requires kt > 0 ==> Partial(ar, mem[..], a[..], b[..], p, mt, nt, Scaled(ar, beta, c[..], p, mt, nt), At(p, kt, 0))
    requires kt > 0 ==> Spare(mem[..], c[..], p, mt, nt)
    modifies mem
    ensures Partial(ar, mem[..], a[..], b[..], p, mt, nt, Scaled(ar, beta, c[..], p, mt, nt), At(p, kt, p.fk))
    ensures Spare(mem[..], c[..], p, mt, nt)
  {
    ghost var start := Scaled(ar, beta, c[..], p, mt, nt);
    LoadOperands(mem, a, b, p, mt, kt, nt);
    var betaK := one;
    if kt == 0 {
      LoadResult(mem, c, p, mt, nt);
      betaK := beta;
    }
    Ready0(ar, mem[..], a[..], b[..], c[..], p, mt, kt, nt, beta, one);
    Compute(ar, mem, p, betaK, a[..], b[..], mt, kt, nt, start);
  }

  /** In the first k tile the old C is scaled by beta, later the partial result by one. */
  lemma Ready0<T(!new)>(ar: Arith<T>, mem: seq<T>, a: seq<T>, b: seq<T>, c: seq<T>, p: Plan, mt: nat, kt: nat, nt: nat, beta: T, one: T)
    requires IsOne(ar, one) && c != []
    requires Local(p, |mem|) && Reads(p, |a|, |b|) && Writes(p, |c|) && mt < p.mTiles && kt < p.kTiles && nt < p.nTiles
    requires At(p, kt, 0) <= p.kTiles * p.fk
    requires kt > 0 ==> Partial(ar, mem, a, b, p, mt, nt, Scaled(ar, beta, c, p, mt, nt), At(p, kt, 0))
    requires kt == 0 ==> forall i: nat, j: nat :: i < p.fm && j < p.fn ==> mem[p.lc(i, j)] == c[p.gc(mt, i, nt, j)]
    ensures Ready(ar, mem, a, b, p, mt, kt, nt, if kt == 0 then beta else one, Scaled(ar, beta, c, p, mt, nt))
  {
    if kt == 0 {
      assert At(p, 0, 0) == 0;
    }
    assert forall i: nat, j: nat :: i < p.fm && j < p.fn ==> IsEntry(p, mt, i, nt, j);
    assert p.rows <= p.fm;
  }

  /** The finished entry: the initial one scaled by beta, all products accumulated in order. */
  ghost function Final<T>(ar: Arith<T>, a: seq<T>, b: seq<T>, c: seq<T>, p: Plan, beta: T, mt: nat, i: nat, nt: nat, j: nat): T
    requires Reads(p, |a|, |b|) && Writes(p, |c|) && IsEntry(p, mt, i, nt, j)
  {
    Acc(ar, a, b, p, mt, i, nt, j, Start(ar, Times(beta), c[p.gc(mt, i, nt, j)]), p.kTiles * p.fk)
  }

  /** w is no entry of any tile. */
  ghost predicate NoEntry(p: Plan, w: nat) {
    forall mt: nat, i: nat, nt: nat, j: nat :: IsEntry(p, mt, i, nt, j) ==> p.gc(mt, i, nt, j) != w
  }

  /** Exactly the cores' rows of the tiles in D are finished; everything else holds the initial elements. */
  ghost predicate Finished<T>(ar: Arith<T>, c: seq<T>, a: seq<T>, b: seq<T>, c0: seq<T>, p: Plan, beta: T, D: set<(nat, nat)>)
    requires |c| == |c0| && Reads(p, |a|, |b|) && Writes(p, |c0|)
  {
    && (forall mt: nat, i: nat, nt: nat, j: nat :: IsEntry(p, mt, i, nt, j) ==>
          c[p.gc(mt, i, nt, j)] == if (mt, nt) in D && i < p.rows then Final(ar, a, b, c0, p, beta, mt, i, nt, j) else c0[p.gc(mt, i, nt, j)])
    && (forall w: nat :: w < |c| && NoEntry(p, w) ==> c[w] == c0[w])
  }

  lemma AtEnd(p: Plan, kt: nat)
    ensures At(p, kt, p.fk) == At(p, kt + 1, 0)
    ensures At(p, 0, 0) == 0 && At(p, p.kTiles, 0) == p.kTiles * p.fk
    ensures At(p, kt, 0) <= At(p, kt, p.fk)
  {
    assert (kt + 1) * p.fk == kt * p.fk + p.fk;
  }

  /** The k loop over one tile of C. */
  method KLoop<T(==,!new)>(ar: Arith<T>, mem: array<T>, a: array<T>, b: array<T>, c: array<T>, p: Plan, beta: T, one: T, mt: nat, nt: nat)
    requires mem != a && mem != b && mem != c && IsOne(ar, one) && c.Length > 0
    requires Local(p, mem.Length) && Reads(p, a.Length, b.Length) && Writes(p, c.Length) && mt < p.mTiles && nt < p.nTiles
    modifies mem
    ensures Partial(ar, mem[..], a[..], b[..], p, mt, nt, Scaled(ar, beta, c[..], p, mt, nt), p.kTiles * p.fk)
    ensures Spare(mem[..], c[..], p, mt, nt)
  {
    AtEnd(p, 0);
    AtBound(p, 0, 0);
    for kt := 0 to p.kTiles
      invariant At(p, kt, 0) <= p.kTiles * p.fk
      invariant kt > 0 ==> Partial(ar, mem[..], a[..], b[..], p, mt, nt, Scaled(ar, beta, c[..], p, mt, nt), At(p, kt, 0))
      invariant kt > 0 ==> Spare(mem[..], c[..], p, mt, nt)
    {
      AtEnd(p, kt);
      AtBound(p, kt, p.fk);
      KTile(ar, mem, a, b, c, p, beta, one, mt, kt, nt);
    }
  }

  /** One tile of C: the k loop, then the store. */
  method OneTile<T(==,!new)>(ar: Arith<T>, mem: array<T>, a: array<T>, b: array<T>, c: array<T>, p: Plan, beta: T, one: T, mt: nat, nt: nat,
                             ghost c0: seq<T>, ghost D: set<(nat, nat)>)
    requires mem != a && mem != b && mem != c && c != a && c != b && IsOne(ar, one) && c.Length > 0 && |c0| == c.Length
    requires Local(p, mem.Length) && Reads(p, a.Length, b.Length) && Writes(p, c.Length) && mt < p.mTiles && nt < p.nTiles
    requires (mt, nt) !in D && Finished(ar, c[..], a[..], b[..], c0, p, beta, D)
    modifies mem, c
    ensures Finished(ar, c[..], a[..], b[..], c0, p, beta, D + {(mt, nt)})
  {
    ghost var c1 := c[..];
    KLoop(ar, mem, a, b, c, p, beta, one, mt, nt);
    ghost var m1 := mem[..];
    assert forall i: nat, j: nat :: i < p.fm && j < p.fn ==> IsEntry(p, mt, i, nt, j);
    CopyTile(c, mem, p.fm, p.fn, TileCells(mt, nt, p.fm, p.fn, p.N), p.lc);
    TileStored(ar, m1, c1, c[..], a[..], b[..], c0, p, beta, mt, nt, D);
  }

  lemma TileStored<T>(ar: Arith<T>, mem: seq<T>, c1: seq<T>, c2: seq<T>, a: seq<T>, b: seq<T>, c0: seq<T>, p: Plan, beta: T, mt: nat, nt: nat, D: set<(nat, nat)>)
    requires |c0| == |c1| == |c2| > 0 && (mt, nt) !in D
    requires Local(p, |mem|) && Reads(p, |a|, |b|) && Writes(p, |c0|) && mt < p.mTiles && nt < p.nTiles
    requires Finished(ar, c1, a, b, c0, p, beta, D)
    requires Partial(ar, mem, a, b, p, mt, nt, Scaled(ar, beta, c1, p, mt, nt), p.kTiles * p.fk) && Spare(mem, c1, p, mt, nt)
    requires forall i: nat, j: nat :: i < p.fm && j < p.fn ==> c2[p.gc(mt, i, nt, j)] == mem[p.lc(i, j)]
    requires forall w: nat :: w < |c0| && Missed(TileCells(mt, nt, p.fm, p.fn, p.N), p.fm, p.fn, w) ==> c2[w] == c1[w]
    ensures Finished(ar, c2, a, b, c0, p, beta, D + {(mt, nt)})
  {
    var d := TileCells(mt, nt, p.fm, p.fn, p.N);
    forall mt': nat, i: nat, nt': nat, j: nat | IsEntry(p, mt', i, nt', j)
      ensures c2[p.gc(mt', i, nt', j)] == if (mt', nt') in D + {(mt, nt)} && i < p.rows then Final(ar, a, b, c0, p, beta, mt', i, nt', j)
                                          else c0[p.gc(mt', i, nt', j)]
    {
      if mt' == mt && nt' == nt {
        assert c2[p.gc(mt, i, nt, j)] == mem[p.lc(i, j)];
      } else {
        assert Missed(d, p.fm, p.fn, p.gc(mt', i, nt', j)) by {
          forall r: nat, q: nat | r < p.fm && q < p.fn ensures d(r, q) != p.gc(mt', i, nt', j) {
            assert IsEntry(p, mt, r, nt, q);
          }
        }
      }
    }
    forall w: nat | w < |c2| && NoEntry(p, w) ensures c2[w] == c0[w] {
      assert Missed(d, p.fm, p.fn, w) by {
        forall r: nat, q: nat | r < p.fm && q < p.fn ensures d(r, q) != w { assert IsEntry(p, mt, r, nt, q); }
      }
    }
  }

  /** The tiles with m index in [lo, hi). */
  ghost function Band(lo: nat, hi: nat, nTiles: nat): set<(nat, nat)> {
    set mt: nat, nt: nat | lo <= mt < hi && nt < nTiles :: (mt, nt)
  }

  /** One row of tiles. */
  method TileRow<T(==,!new)>(ar: Arith<T>, mem: array<T>, a: array<T>, b: array<T>, c: array<T>, p: Plan, beta: T, one: T, mt: nat,
                             ghost c0: seq<T>, ghost D: set<(nat, nat)>)
    requires mem != a && mem != b && mem != c && c != a && c != b && IsOne(ar, one) && c.Length > 0 && |c0| == c.Length
    requires Local(p, mem.Length) && Reads(p, a.Length, b.Length) && Writes(p, c.Length) && mt < p.mTiles
    requires D !! Band(mt, mt + 1, p.nTiles) && Finished(ar, c[..], a[..], b[..], c0, p, beta, D)
    modifies mem, c
    ensures Finished(ar, c[..], a[..], b[..], c0, p, beta, D + Band(mt, mt + 1, p.nTiles))
  {
    ghost var E := D;
    for nt := 0 to p.nTiles
      invariant E == D + Band(mt, mt + 1, nt)
      invariant Finished(ar, c[..], a[..], b[..], c0, p, beta, E)
    {
      assert (mt, nt) in Band(mt, mt + 1, p.nTiles);
      OneTile(ar, mem, a, b, c, p, beta, one, mt, nt, c0, E);
      E := E + {(mt, nt)};
    }
  }

  /** What one cluster does: its m tiles, per cluster many, starting at idx * per. */
  method Cluster<T(==,!new)>(ar: Arith<T>, mem: array<T>, a: array<T>, b: array<T>, c: array<T>, p: Plan, beta: T, one: T, first: nat, per: nat,
                             ghost c0: seq<T>, ghost D: set<(nat, nat)>)
    requires mem != a && mem != b && mem != c && c != a && c != b && IsOne(ar, one) && c.Length > 0 && |c0| == c.Length
    requires Local(p, mem.Length) && Reads(p, a.Length, b.Length) && Writes(p, c.Length) && first + per <= p.mTiles
    requires D !! Band(first, first + per, p.nTiles) && Finished(ar, c[..], a[..], b[..], c0, p, beta, D)
    modifies mem, c
    ensures Finished(ar, c[..], a[..], b[..], c0, p, beta, D + Band(first, first + per, p.nTiles))
  {
    ghost var E := D;
    for t := 0 to per
      invariant E == D + Band(first, first + t, p.nTiles)
      invariant Finished(ar, c[..], a[..], b[..], c0, p, beta, E)
    {
      assert Band(first + t, first + t + 1, p.nTiles) <= Band(first, first + per, p.nTiles);
      TileRow(ar, mem, a, b, c, p, beta, one, first + t, c0, E);
      E := E + Band(first + t, first + t + 1, p.nTiles);
      assert Band(first, first + t + 1, p.nTiles) == Band(first, first + t, p.nTiles) + Band(first + t, first + t + 1, p.nTiles);
    }
  }

  /** The clusters one after the other, in any order: each touches its own memory and its own tiles of C. */
  method AllClusters<T(==,!new)>(ar: Arith<T>, mems: seq<array<T>>, a: array<T>, b: array<T>, c: array<T>, p: Plan, beta: T, one: T, per: nat, order: seq<nat>)
    requires c != a && c != b && IsOne(ar, one) && c.Length > 0 && |order| == |mems| && |mems| * per == p.mTiles
    requires forall q: nat :: q < |mems| ==> mems[q] != a && mems[q] != b && mems[q] != c && Local(p, mems[q].Length)
    requires (forall q: nat :: q < |order| ==> order[q] < |mems|) && (forall q: nat :: q < |mems| ==> q in order)
    requires forall q: nat, q': nat :: q < q' < |order| ==> order[q] != order[q']
    requires Reads(p, a.Length, b.Length) && Writes(p, c.Length)
    modifies mems, c
    ensures Finished(ar, c[..], a[..], b[..], old(c[..]), p, beta, Band(0, p.mTiles, p.nTiles))
  {
    ghost var c0 := c[..];
    ghost var D: set<(nat, nat)> := {};
    for q := 0 to |order|
      invariant Finished(ar, c[..], a[..], b[..], c0, p, beta, D)
      invariant Taken(p, per, order, q, D)
    {
      var id := order[q];
      GroupFits(id, |mems|, per);
      ghost var band := Band(id * per, id * per + per, p.nTiles);
      NotTaken(p, per, order, q, D);
      Cluster(ar, mems[id], a, b, c, p, beta, one, id * per, per, c0, D);
      TakeNext(p, per, order, q, D);
      D := D + band;
    }
    AllOwned(p, per, order, D);
  }

  /** D holds the tiles of the first q clusters. */
  ghost predicate Taken(p: Plan, per: nat, order: seq<nat>, q: nat, D: set<(nat, nat)>)
    requires q <= |order|
  {
    forall mt: nat, nt: nat :: (mt, nt) in D <==> nt < p.nTiles && OwnedBy(order[..q], per, mt)
  }

  lemma NotTaken(p: Plan, per: nat, order: seq<nat>, q: nat, D: set<(nat, nat)>)
    requires q < |order| && Taken(p, per, order, q, D) && forall r: nat :: r < q ==> order[r] != order[q]
    ensures forall mt: nat, nt: nat :: (mt, nt) in D ==> (mt, nt) !in Band(order[q] * per, order[q] * per + per, p.nTiles)
  {
    forall mt: nat, nt: nat | (mt, nt) in D ensures (mt, nt) !in Band(order[q] * per, order[q] * per + per, p.nTiles) {
      var r: nat :| r < q && Owns(order[..q][r], per, mt);
      OwnsOne(order[r], order[q], per, mt);
    }
  }

  lemma TakeNext(p: Plan, per: nat, order: seq<nat>, q: nat, D: set<(nat, nat)>)
    requires q < |order| && Taken(p, per, order, q, D)
    ensures Taken(p, per, order, q + 1, D + Band(order[q] * per, order[q] * per + per, p.nTiles))
  {
    forall mt: nat ensures OwnedBy(order[..q + 1], per, mt) <==> OwnedBy(order[..q], per, mt) || Owns(order[q], per, mt) {
      OwnedNext(per, order, q, mt);
    }
  }

  lemma OwnedNext(per: nat, order: seq<nat>, q: nat, mt: nat)
    requires q < |order|
    ensures OwnedBy(order[..q + 1], per, mt) <==> OwnedBy(order[..q], per, mt) || Owns(order[q], per, mt)
  {
    var fewer, more := order[..q], order[..q + 1];
    assert more[q] == order[q];
    if r: nat :| r < |more| && Owns(more[r], per, mt) { assert r < q ==> fewer[r] == more[r]; }
    if r: nat :| r < |fewer| && Owns(fewer[r], per, mt) { assert more[r] == fewer[r]; }
  }

  /** Cluster id has m tile mt. */
  predicate Owns(id: nat, per: nat, mt: nat) { id * per <= mt < id * per + per }

  lemma OwnsOne(id: nat, id': nat, per: nat, mt: nat)
    requires id != id' && Owns(id, per, mt)
    ensures !Owns(id', per, mt)
  {
    if id < id' { GroupFits(id, id', per); } else { GroupFits(id', id, per); }
  }

  ghost predicate OwnedBy(order: seq<nat>, per: nat, mt: nat) { exists r: nat :: r < |order| && Owns(order[r], per, mt) }

  lemma EveryTileOwned(per: nat, order: seq<nat>, mt: nat)
    requires forall q: nat :: q < |order| ==> q in order
    requires forall q: nat :: q < |order| ==> order[q] < |order|
    ensures OwnedBy(order, per, mt) <==> mt < |order| * per
  {
    if mt < |order| * per {
      Owner(|order|, per, mt);
      var id: nat :| id < |order| && Owns(id, per, mt);
      assert id in order;
      var r: nat :| r < |order| && order[r] == id;
    }
    if OwnedBy(order, per, mt) {
      var r: nat :| r < |order| && Owns(order[r], per, mt);
      GroupFits(order[r], |order|, per);
    }
  }

  lemma AllOwned(p: Plan, per: nat, order: seq<nat>, D: set<(nat, nat)>)
    requires |order| * per == p.mTiles && forall q: nat :: q < |order| ==> q in order
    requires forall q: nat :: q < |order| ==> order[q] < |order|
    requires Taken(p, per, order, |order|, D)
    ensures D == Band(0, p.mTiles, p.nTiles)
  {
    assert order[..|order|] == order;
    forall x: (nat, nat) ensures x in D <==> x in Band(0, p.mTiles, p.nTiles) {
      EveryTileOwned(per, order, x.0);
      assert x == (x.0, x.1);
      assert x in D <==> x.1 < p.nTiles && OwnedBy(order, per, x.0);
    }
  }

  lemma {:induction false} Owner(clusters: nat, per: nat, mt: nat)
    requires mt < clusters * per
    ensures exists id: nat :: id < clusters && Owns(id, per, mt)
  {
    assert clusters > 0;
    var last := clusters - 1;
    assert clusters * per == last * per + per;
    if mt >= last * per {
      assert Owns(last, per, mt);
    } else {
      Owner(last, per, mt);
      var id: nat :| id < last && Owns(id, per, mt);
    }
  }

  // ----- the index arithmetic of the source

  /** Element (r, q) of tile (i1, i0) in a row-major matrix with `full` columns (snrt_dma_load_2d_tile). */
  function TileElement(i1: nat, i0: nat, rows: nat, cols: nat, full: nat, r: nat, q: nat): nat {
    i0 * cols + i1 * rows * full + r * full + q
  }

  /** The elements a tile transfer touches. */
  function TileCells(i1: nat, i0: nat, rows: nat, cols: nat, full: nat): (nat, nat) -> nat {
    (r: nat, q: nat) => TileElement(i1, i0, rows, cols, full, r, q)
  }

  /** The plan of gemm for matrices of rows of K and of N elements, with the tile buffers from `heap` on. */
  function PlanOf(t: Tiling, K: nat, N: nat, cores: nat, share: nat, heap: nat): Plan {
    Plan(t.mTiles, t.nTiles, t.kTiles, t.fm, t.fn, t.fk, K, N, cores, share, t.rows, Strided(cores),
         Cells(heap, t.fk), Cells(heap + t.fm * t.fk, t.fn), Cells(heap + t.fm * t.fk + t.fk * t.fn, t.fn),
         RowCells(t.fm, K), ColumnCells(t.fn, N), EntryCells(t.fm, t.fn, N))
  }

  /** How many tiles are worked on, their sizes, and how many rows of each the cores take. */
  datatype Tiling = Tiling(mTiles: nat, nTiles: nat, kTiles: nat, fm: nat, fn: nat, fk: nat, rows: nat)

  /** The tiles are within the matrices. */
  predicate Within(t: Tiling, M: nat, N: nat, K: nat) {
    t.mTiles * t.fm <= M && t.nTiles * t.fn <= N && t.kTiles * t.fk <= K && t.rows <= t.fm && t.kTiles > 0
  }

  /** Rows dealt out to the cores in turn. */
  function Strided(cores: nat): (nat, nat) -> nat { (id: nat, r: nat) => id + r * cores }

  /** Cells of a row-major matrix from `base` on. */
  function Cells(base: nat, cols: nat): (nat, nat) -> nat { (r: nat, q: nat) => base + (r * cols + q) }

  /** Elements of A, B and C, with rows of A and C and columns of B and C given as (tile, offset). */
  function RowCells(fm: nat, K: nat): (nat, nat, nat) -> nat { (mt: nat, i: nat, x: nat) => (mt * fm + i) * K + x }
  function ColumnCells(fn: nat, N: nat): (nat, nat, nat) -> nat { (x: nat, nt: nat, j: nat) => x * N + (nt * fn + j) }
  function EntryCells(fm: nat, fn: nat, N: nat): (nat, nat, nat, nat) -> nat {
    (mt: nat, i: nat, nt: nat, j: nat) => (mt * fm + i) * N + (nt * fn + j)
  }

  /** Element (r, q) of tile (i1, i0) is at row i1 * rows + r, column i0 * cols + q. */
  lemma TileElements(i1: nat, i0: nat, rows: nat, cols: nat, full: nat, r: nat, q: nat)
    ensures TileCells(i1, i0, rows, cols, full)(r, q) == (i1 * rows + r) * full + (i0 * cols + q)
  {
    assert i1 * rows * full + r * full == (i1 * rows + r) * full;
  }

  lemma PlanTiles(p: Plan)
    requires RowMajorIn(p) && RowMajorOut(p)
    ensures ReadsTiles(p) && WritesTiles(p)
  {
    forall mt: nat, kt: nat, i: nat, l: nat ensures TileCells(mt, kt, p.fm, p.fk, p.K)(i, l) == p.ga(mt, i, At(p, kt, l)) {
      TileElements(mt, kt, p.fm, p.fk, p.K, i, l);
    }
    forall kt: nat, nt: nat, l: nat, j: nat ensures TileCells(kt, nt, p.fk, p.fn, p.N)(l, j) == p.gb(At(p, kt, l), nt, j) {
      TileElements(kt, nt, p.fk, p.fn, p.N, l, j);
    }
    forall mt: nat, nt: nat, i: nat, j: nat ensures TileCells(mt, nt, p.fm, p.fn, p.N)(i, j) == p.gc(mt, i, nt, j) {
      TileElements(mt, nt, p.fm, p.fn, p.N, i, j);
    }
  }

  /** Rows id, id + cores, id + 2 cores, ...: lda and ldc strided by the core count, offset by the core index. */
  lemma PlanShares(p: Plan)
    requires p.share * p.cores == p.rows <= p.fm && forall id: nat, r: nat :: p.row(id, r) == id + r * p.cores
    ensures Shares(p)
  {
    forall id: nat, r: nat | id < p.cores && r < p.share ensures p.row(id, r) < p.rows {
      PairBound(r, id, p.share, p.cores);
    }
    forall id: nat, r: nat, id': nat, r': nat
      | id < p.cores && r < p.share && id' < p.cores && r' < p.share && p.row(id, r) == p.row(id', r')
      ensures id == id' && r == r'
    {
      PairUnique(p.cores, r, id, r', id');
    }
    forall i: nat | i < p.rows ensures Owned(p, i) {
      RowOwned(p, i);
    }
  }

  lemma RowOwned(p: Plan, i: nat)
    requires i < p.share * p.cores && forall id: nat, r: nat :: p.row(id, r) == id + r * p.cores
    ensures Owned(p, i)
  {
    Owner(p.share, p.cores, i);
    var r: nat :| r < p.share && Owns(r, p.cores, i);
    var id := i - r * p.cores;
    assert p.row(id, r) == i;
  }

  lemma EntriesApart(p: Plan, M: nat, cSize: nat)
    requires p.mTiles * p.fm <= M && p.nTiles * p.fn <= p.N && cSize == M * p.N && WritesTiles(p)
    requires forall mt: nat, i: nat, nt: nat, j: nat :: p.gc(mt, i, nt, j) == (mt * p.fm + i) * p.N + (nt * p.fn + j)
    ensures Writes(p, cSize)
  {
    forall mt: nat, i: nat, nt: nat, j: nat | IsEntry(p, mt, i, nt, j) ensures p.gc(mt, i, nt, j) < cSize {
      EntryBound(p.mTiles, p.fm, p.nTiles, p.fn, M, p.N, mt, i, nt, j);
    }
    forall mt: nat, i: nat, nt: nat, j: nat, mt': nat, i': nat, nt': nat, j': nat
      | IsEntry(p, mt, i, nt, j) && IsEntry(p, mt', i', nt', j') && p.gc(mt, i, nt, j) == p.gc(mt', i', nt', j')
      ensures mt == mt' && i == i' && nt == nt' && j == j'
    {
      EntryUnique(p.fm, p.nTiles, p.fn, p.N, mt, i, nt, j, mt', i', nt', j', p.gc(mt, i, nt, j));
    }
  }

  lemma EntryBound(mTiles: nat, fm: nat, nTiles: nat, fn: nat, M: nat, N: nat, mt: nat, i: nat, nt: nat, j: nat)
    requires mt < mTiles && i < fm && nt < nTiles && j < fn && mTiles * fm <= M && nTiles * fn <= N
    ensures (mt * fm + i) * N + (nt * fn + j) < M * N
  {
    PairBound(mt, i, mTiles, fm);
    PairBound(nt, j, nTiles, fn);
    PairBound(mt * fm + i, nt * fn + j, M, N);
  }

  lemma EntryUnique(fm: nat, nTiles: nat, fn: nat, N: nat, mt: nat, i: nat, nt: nat, j: nat, mt': nat, i': nat, nt': nat, j': nat, x: nat)
    requires i < fm && nt < nTiles && j < fn && i' < fm && nt' < nTiles && j' < fn && nTiles * fn <= N
    requires x == (mt * fm + i) * N + (nt * fn + j) && x == (mt' * fm + i') * N + (nt' * fn + j')
    ensures mt == mt' && i == i' && nt == nt' && j == j'
  {
    PairBound(nt, j, nTiles, fn);
    PairBound(nt', j', nTiles, fn);
    PairUnique(N, mt * fm + i, nt * fn + j, mt' * fm + i', nt' * fn + j');
    PairUnique(fm, mt, i, mt', i');
    PairUnique(fn, nt, j, nt', j');
  }

  lemma OperandsWithin(p: Plan, M: nat)
    requires p.kTiles > 0 && p.mTiles * p.fm <= M && p.nTiles * p.fn <= p.N && p.kTiles * p.fk <= p.K && ReadsTiles(p)
    requires RowMajorIn(p)
    ensures Reads(p, M * p.K, p.K * p.N)
  {
    forall mt: nat, i: nat, x: nat | mt < p.mTiles && i < p.fm && x < p.kTiles * p.fk ensures p.ga(mt, i, x) < M * p.K {
      PairBound(mt, i, p.mTiles, p.fm);
      PairBound(mt * p.fm + i, x, M, p.K);
    }
    forall x: nat, nt: nat, j: nat | x < p.kTiles * p.fk && nt < p.nTiles && j < p.fn ensures p.gb(x, nt, j) < p.K * p.N {
      PairBound(nt, j, p.nTiles, p.fn);
      PairBound(x, nt * p.fn + j, p.K, p.N);
    }
  }

  /** A row-major matrix from `base` on occupies rows * cols cells, each once. */
  lemma RowMajor(base: nat, rows: nat, cols: nat, d: (nat, nat) -> nat, size: nat)
    requires forall r: nat, q: nat :: d(r, q) == base + (r * cols + q)
    requires base + rows * cols <= size
    ensures InjectiveTo(d, rows, cols, size)
    ensures forall r: nat, q: nat :: r < rows && q < cols ==> base <= d(r, q) < base + rows * cols
  {
    RowMajorBound(base, rows, cols, d);
    RowMajorUnique(base, rows, cols, d);
  }

  lemma RowMajorBound(base: nat, rows: nat, cols: nat, d: (nat, nat) -> nat)
    requires forall r: nat, q: nat :: d(r, q) == base + (r * cols + q)
    ensures forall r: nat, q: nat :: r < rows && q < cols ==> base <= d(r, q) < base + rows * cols
  {
    forall r: nat, q: nat | r < rows && q < cols ensures base <= d(r, q) < base + rows * cols {
      PairBound(r, q, rows, cols);
    }
  }

  lemma RowMajorUnique(base: nat, rows: nat, cols: nat, d: (nat, nat) -> nat)
    requires forall r: nat, q: nat :: d(r, q) == base + (r * cols + q)
    ensures forall r: nat, q: nat, r': nat, q': nat ::
              r < rows && q < cols && r' < rows && q' < cols && d(r, q) == d(r', q') ==> r == r' && q == q'
  {
    forall r: nat, q: nat, r': nat, q': nat | r < rows && q < cols && r' < rows && q' < cols && d(r, q) == d(r', q')
      ensures r == r' && q == q'
    {
      CellUnique(base, cols, r, q, r', q', d(r, q));
    }
  }

  lemma CellUnique(base: nat, cols: nat, r: nat, q: nat, r': nat, q': nat, x: nat)
    requires q < cols && q' < cols && x == base + (r * cols + q) && x == base + (r' * cols + q')
    ensures r == r' && q == q'
  {
    PairUnique(cols, r, q, r', q');
  }

  /** Three row-major buffers one after the other. */
  lemma LocalCells(p: Plan, a: nat, b: nat, c: nat, local: nat)
    requires p.share * p.cores == p.rows <= p.fm && a + p.fm * p.fk == b && b + p.fk * p.fn == c && c + p.fm * p.fn <= local
    requires forall id: nat, r: nat :: p.row(id, r) == id + r * p.cores
    requires forall i: nat, l: nat :: p.la(i, l) == a + (i * p.fk + l)
    requires forall l: nat, j: nat :: p.lb(l, j) == b + (l * p.fn + j)
    requires forall i: nat, j: nat :: p.lc(i, j) == c + (i * p.fn + j)
    ensures Local(p, local)
  {
    PlanShares(p);
    CellsApart(p, a, b, c, local);
    CellsInRanges(p, a, b, c, local);
    TileApart(p, a, b, c, local);
  }

  lemma CellsApart(p: Plan, a: nat, b: nat, c: nat, local: nat)
    requires a + p.fm * p.fk == b && b + p.fk * p.fn == c && c + p.fm * p.fn <= local
    requires forall i: nat, l: nat :: p.la(i, l) == a + (i * p.fk + l)
    requires forall l: nat, j: nat :: p.lb(l, j) == b + (l * p.fn + j)
    requires forall i: nat, j: nat :: p.lc(i, j) == c + (i * p.fn + j)
    ensures InjectiveTo(p.la, p.fm, p.fk, local) && InjectiveTo(p.lb, p.fk, p.fn, local) && InjectiveTo(p.lc, p.fm, p.fn, local)
  {
    RowMajor(a, p.fm, p.fk, p.la, local);
    RowMajor(b, p.fk, p.fn, p.lb, local);
    RowMajor(c, p.fm, p.fn, p.lc, local);
  }

  lemma CellsInRanges(p: Plan, a: nat, b: nat, c: nat, local: nat)
    requires a + p.fm * p.fk == b && b + p.fk * p.fn == c && c + p.fm * p.fn <= local
    requires forall i: nat, l: nat :: p.la(i, l) == a + (i * p.fk + l)
    requires forall l: nat, j: nat :: p.lb(l, j) == b + (l * p.fn + j)
    requires forall i: nat, j: nat :: p.lc(i, j) == c + (i * p.fn + j)
    ensures Ranges(p, a, b, c)
  {
    RowMajorBound(a, p.fm, p.fk, p.la);
    RowMajorBound(b, p.fk, p.fn, p.lb);
  }

  lemma PlanLocal(t: Tiling, K: nat, N: nat, cores: nat, share: nat, heap: nat, local: nat)
    requires share * cores == t.rows <= t.fm && heap + t.fm * t.fk + t.fk * t.fn + t.fm * t.fn <= local
    ensures Local(PlanOf(t, K, N, cores, share, heap), local)
  {
    LocalCells(PlanOf(t, K, N, cores, share, heap), heap, heap + t.fm * t.fk, heap + t.fm * t.fk + t.fk * t.fn, local);
  }

  lemma PlanGlobal(t: Tiling, M: nat, K: nat, N: nat, cores: nat, share: nat, heap: nat)
    requires Within(t, M, N, K)
    ensures Reads(PlanOf(t, K, N, cores, share, heap), M * K, K * N) && Writes(PlanOf(t, K, N, cores, share, heap), M * N)
  {
    var p := PlanOf(t, K, N, cores, share, heap);
    PlanTiles(p);
    OperandsWithin(p, M);
    EntriesApart(p, M, M * N);
  }

  /** Buffers in disjoint ranges. */
  ghost predicate Ranges(p: Plan, a: nat, b: nat, c: nat) {
    && b <= c
    && (forall i: nat, l: nat :: i < p.fm && l < p.fk ==> a <= p.la(i, l) < b)
    && (forall l: nat, j: nat :: l < p.fk && j < p.fn ==> b <= p.lb(l, j) < c)
    && (forall i: nat, j: nat :: i < p.fm && j < p.fn ==> c <= p.lc(i, j))
  }

  lemma TileApart(p: Plan, a: nat, b: nat, c: nat, local: nat)
    requires InjectiveTo(p.la, p.fm, p.fk, local) && InjectiveTo(p.lb, p.fk, p.fn, local) && InjectiveTo(p.lc, p.fm, p.fn, local)
    requires Ranges(p, a, b, c)
    ensures Apart(Tile(p), local)
  {
    var t := Tile(p);
    assert forall i: nat, j: nat, l: nat :: t.a(i, j, l) == p.la(i, l);
    assert forall i: nat, j: nat :: t.c(i, j) == p.lc(i, j);
    assert forall l: nat, j: nat :: t.b(l, j) == p.lb(l, j);
  }

  // ----- the whole multiplication

  /** The plain inner product over row-major matrices, first x products: line 18 of the naive kernel with lda = K and
      ldb = N. */
  ghost function Plain<T>(ar: Arith<T>, a: seq<T>, b: seq<T>, M: nat, K: nat, N: nat, i: nat, j: nat, start: T, x: nat): T
    requires |a| == M * K && |b| == K * N && i < M && j < N && x <= K
  {
    if x == 0 then start
    else
      PairBound(i, x - 1, M, K);
      PairBound(x - 1, j, K, N);
      ar.mac(a[i * K + (x - 1)], b[(x - 1) * N + j], Plain(ar, a, b, M, K, N, i, j, start, x - 1))
  }

  lemma {:induction false} AccIsPlain<T>(ar: Arith<T>, a: seq<T>, b: seq<T>, p: Plan, M: nat, mt: nat, i: nat, nt: nat, j: nat, start: T, x: nat)
    requires Reads(p, |a|, |b|) && IsEntry(p, mt, i, nt, j) && x <= p.kTiles * p.fk <= p.K && |a| == M * p.K && |b| == p.K * p.N
    requires mt * p.fm + i < M && nt * p.fn + j < p.N
    requires RowMajorIn(p)
    ensures Acc(ar, a, b, p, mt, i, nt, j, start, x) == Plain(ar, a, b, M, p.K, p.N, mt * p.fm + i, nt * p.fn + j, start, x)
  {
    if x == 0 {
    } else {
      AccIsPlain(ar, a, b, p, M, mt, i, nt, j, start, x - 1);
    }
  }

  /** A row or column index falls in one tile. */
  lemma TileOf(tiles: nat, size: nat, x: nat) returns (t: nat, r: nat)
    requires x < tiles * size
    ensures t < tiles && r < size && x == t * size + r
  {
    Owner(tiles, size, x);
    t :| t < tiles && Owns(t, size, x);
    r := x - t * size;
  }

  /** Row i is worked on: row r of tile mt, for some core. */
  predicate Worked(t: Tiling, i: nat) { exists mt: nat, r: nat :: mt < t.mTiles && r < t.rows && At2(mt, t.fm, r) == i }

  function At2(mt: nat, fm: nat, r: nat): nat { mt * fm + r }

  /** Entry (i, j) of C is the initial one scaled by beta, with the first x products of row i and column j accumulated in
      order. */
  ghost predicate TiledEntry<T>(ar: Arith<T>, c: seq<T>, a: seq<T>, b: seq<T>, c0: seq<T>, beta: T, M: nat, N: nat, K: nat, x: nat, i: nat, j: nat)
    requires |c| == |c0| == M * N && |a| == M * K && |b| == K * N && i < M && j < N && x <= K
  {
    PairBound(i, j, M, N);
    c[i * N + j] == Plain(ar, a, b, M, K, N, i, j, Start(ar, Times(beta), c0[i * N + j]), x)
  }

  ghost predicate OldEntry<T>(c: seq<T>, c0: seq<T>, M: nat, N: nat, i: nat, j: nat)
    requires |c| == |c0| == M * N && i < M && j < N
  {
    PairBound(i, j, M, N);
    c[i * N + j] == c0[i * N + j]
  }

  /** The entries that the tiling works on are products over the k tiles; the others are as they were. */
  ghost predicate IsTiled<T>(ar: Arith<T>, c: seq<T>, a: seq<T>, b: seq<T>, c0: seq<T>, beta: T, M: nat, N: nat, K: nat, t: Tiling)
    requires |c| == |c0| == M * N && |a| == M * K && |b| == K * N && Within(t, M, N, K)
  {
    forall i: nat, j: nat :: i < M && j < N ==>
      if Worked(t, i) && j < t.nTiles * t.fn then TiledEntry(ar, c, a, b, c0, beta, M, N, K, t.kTiles * t.fk, i, j)
      else OldEntry(c, c0, M, N, i, j)
  }

  /** Row r and column q of tile (mt, nt) are row i and column j of C. */
  lemma FinishedWorked<T>(ar: Arith<T>, c: seq<T>, a: seq<T>, b: seq<T>, c0: seq<T>, p: Plan, beta: T, M: nat,
                          mt: nat, r: nat, nt: nat, q: nat, i: nat, j: nat)
    requires |c| == |c0| == M * p.N && |a| == M * p.K && |b| == p.K * p.N && Reads(p, |a|, |b|) && Writes(p, |c0|)
    requires p.kTiles * p.fk <= p.K && i < M && j < p.N && i == mt * p.fm + r && j == nt * p.fn + q
    requires RowMajorIn(p) && RowMajorOut(p)
    requires Finished(ar, c, a, b, c0, p, beta, Band(0, p.mTiles, p.nTiles)) && IsEntry(p, mt, r, nt, q)
    ensures if r < p.rows then TiledEntry(ar, c, a, b, c0, beta, M, p.N, p.K, p.kTiles * p.fk, i, j) else OldEntry(c, c0, M, p.N, i, j)
  {
    PairBound(i, j, M, p.N);
    assert p.gc(mt, r, nt, q) == i * p.N + j;
    assert (mt, nt) in Band(0, p.mTiles, p.nTiles);
    if r < p.rows {
      AccIsPlain(ar, a, b, p, M, mt, r, nt, q, Start(ar, Times(beta), c0[i * p.N + j]), p.kTiles * p.fk);
    }
  }

  /** An element outside of all tiles is no entry of one. */
  lemma OutsideTiles(p: Plan, M: nat, i: nat, j: nat)
    requires p.mTiles * p.fm <= M && p.nTiles * p.fn <= p.N && i < M && j < p.N
    requires RowMajorOut(p)
    requires i >= p.mTiles * p.fm || j >= p.nTiles * p.fn
    ensures NoEntry(p, i * p.N + j)
  {
    forall mt: nat, r: nat, nt: nat, q: nat | IsEntry(p, mt, r, nt, q) ensures p.gc(mt, r, nt, q) != i * p.N + j {
      PairBound(mt, r, p.mTiles, p.fm);
      PairBound(nt, q, p.nTiles, p.fn);
      if p.gc(mt, r, nt, q) == i * p.N + j {
        PairUnique(p.N, mt * p.fm + r, nt * p.fn + q, i, j);
      }
    }
  }

  lemma WorkedIs(t: Tiling, mt: nat, r: nat)
    requires mt < t.mTiles && r < t.fm && t.rows <= t.fm
    ensures Worked(t, mt * t.fm + r) <==> r < t.rows
  {
    if r < t.rows { assert At2(mt, t.fm, r) == mt * t.fm + r; }
    if Worked(t, mt * t.fm + r) {
      var mt': nat, r': nat :| mt' < t.mTiles && r' < t.rows && At2(mt', t.fm, r') == mt * t.fm + r;
      PairUnique(t.fm, mt, r, mt', r');
    }
  }

  lemma WorkedBelow(t: Tiling, i: nat)
    requires Worked(t, i) && t.rows <= t.fm
    ensures i < t.mTiles * t.fm
  {
    var mt: nat, r: nat :| mt < t.mTiles && r < t.rows && At2(mt, t.fm, r) == i;
    PairBound(mt, r, t.mTiles, t.fm);
  }

  lemma FinishedAt<T>(ar: Arith<T>, c: seq<T>, a: seq<T>, b: seq<T>, c0: seq<T>, p: Plan, beta: T, M: nat, t: Tiling, i: nat, j: nat)
    requires |c| == |c0| == M * p.N && |a| == M * p.K && |b| == p.K * p.N && Reads(p, |a|, |b|) && Writes(p, |c0|)
    requires Within(t, M, p.N, p.K) && p.mTiles == t.mTiles && p.nTiles == t.nTiles && p.kTiles == t.kTiles
    requires p.fm == t.fm && p.fn == t.fn && p.fk == t.fk && p.rows == t.rows
    requires RowMajorIn(p) && RowMajorOut(p)
    requires Finished(ar, c, a, b, c0, p, beta, Band(0, p.mTiles, p.nTiles))
    requires i < M && j < p.N
    ensures if Worked(t, i) && j < t.nTiles * t.fn then TiledEntry(ar, c, a, b, c0, beta, M, p.N, p.K, t.kTiles * t.fk, i, j)
            else OldEntry(c, c0, M, p.N, i, j)
  {
    if i < t.mTiles * t.fm && j < t.nTiles * t.fn {
      var mt, r := TileOf(t.mTiles, t.fm, i);
      var nt, q := TileOf(t.nTiles, t.fn, j);
      WorkedIs(t, mt, r);
      FinishedWorked(ar, c, a, b, c0, p, beta, M, mt, r, nt, q, i, j);
    } else {
      if Worked(t, i) { WorkedBelow(t, i); }
      FinishedOutside(ar, c, a, b, c0, p, beta, M, i, j);
    }
  }

  lemma FinishedOutside<T>(ar: Arith<T>, c: seq<T>, a: seq<T>, b: seq<T>, c0: seq<T>, p: Plan, beta: T, M: nat, i: nat, j: nat)
    requires |c| == |c0| == M * p.N && Reads(p, |a|, |b|) && Writes(p, |c0|) && RowMajorOut(p)
    requires p.mTiles * p.fm <= M && p.nTiles * p.fn <= p.N && i < M && j < p.N
    requires Finished(ar, c, a, b, c0, p, beta, Band(0, p.mTiles, p.nTiles))
    requires i >= p.mTiles * p.fm || j >= p.nTiles * p.fn
    ensures OldEntry(c, c0, M, p.N, i, j)
  {
    OutsideTiles(p, M, i, j);
    PairBound(i, j, M, p.N);
  }

  lemma FinishedIsTiled<T>(ar: Arith<T>, c: seq<T>, a: seq<T>, b: seq<T>, c0: seq<T>, p: Plan, beta: T, M: nat, t: Tiling)
    requires |c| == |c0| == M * p.N && |a| == M * p.K && |b| == p.K * p.N && Reads(p, |a|, |b|) && Writes(p, |c0|)
    requires Within(t, M, p.N, p.K) && p.mTiles == t.mTiles && p.nTiles == t.nTiles && p.kTiles == t.kTiles
    requires p.fm == t.fm && p.fn == t.fn && p.fk == t.fk && p.rows == t.rows
    requires RowMajorIn(p) && RowMajorOut(p)
    requires Finished(ar, c, a, b, c0, p, beta, Band(0, p.mTiles, p.nTiles))
    ensures IsTiled(ar, c, a, b, c0, beta, M, p.N, p.K, t)
  {
    forall i: nat, j: nat | i < M && j < p.N
      ensures if Worked(t, i) && j < t.nTiles * t.fn then TiledEntry(ar, c, a, b, c0, beta, M, p.N, p.K, t.kTiles * t.fk, i, j)
              else OldEntry(c, c0, M, p.N, i, j)
    {
      FinishedAt(ar, c, a, b, c0, p, beta, M, t, i, j);
    }
  }

  /** The order in which the clusters are run: each once. */
  ghost predicate Permutation(order: seq<nat>, n: nat) {
    && |order| == n && (forall q: nat :: q < n ==> order[q] < n) && (forall q: nat :: q < n ==> q in order)
    && (forall q: nat, q': nat :: q < q' < n ==> order[q] != order[q'])
  }

  /** The tiling of gemm for the given numbers of tiles, cores and clusters (lines 144 to 150, 170 to 173; line 70 of
      sc_st_gemm): what does not divide is left over. */
  function TilingOf(M: nat, N: nat, K: nat, mTiles: nat, nTiles: nat, kTiles: nat, cores: nat, clusters: nat): (t: Tiling)
    requires mTiles > 0 && nTiles > 0 && kTiles > 0 && cores > 0 && clusters > 0
    ensures Within(t, M, N, K)
  {
    var fm := Quot(M, mTiles);
    Whole(M, mTiles);
    Whole(N, nTiles);
    Whole(K, kTiles);
    Whole(fm, cores);
    Whole(mTiles, clusters);
    Fewer(Quot(mTiles, clusters) * clusters, mTiles, fm);
    Tiling(Quot(mTiles, clusters) * clusters, nTiles, kTiles, fm, Quot(N, nTiles), Quot(K, kTiles), Quot(fm, cores) * cores)
  }

  lemma Whole(x: nat, d: nat)
    requires d > 0
    ensures 0 <= Quot(x, d) * d == d * Quot(x, d) <= x
    ensures x % d == 0 ==> Quot(x, d) * d == x
  {}

  lemma Fewer(a: nat, b: nat, n: nat)
    requires a <= b
    ensures 0 <= a * n <= b * n
  {
    assert (b - a) * n >= 0;
    assert (b - a) * n == b * n - a * n;
  }

  lemma NoEntries(M: nat, N: nat)
    requires M * N == 0
    ensures M == 0 || N == 0
  {
    if M > 0 && N > 0 { PairBound(0, 0, M, N); }
  }

  /** Every size, every tiling, any number of cores and of clusters in any order: the entries of whole tiles, in rows that a
      core takes, end as products over whole k tiles, with uninterpreted multiply-add; every other entry stays. */
  method Multiply<T(==,!new)>(ar: Arith<T>, mems: seq<array<T>>, a: array<T>, b: array<T>, c: array<T>, M: nat, N: nat, K: nat,
                              mTiles: nat, nTiles: nat, kTiles: nat, cores: nat, heap: nat, order: seq<nat>, beta: T, one: T)
    requires a.Length == M * K && b.Length == K * N && c.Length == M * N && c != a && c != b && IsOne(ar, one)
    requires mTiles > 0 && nTiles > 0 && kTiles > 0 && cores > 0 && |mems| > 0 && Permutation(order, |mems|)
    requires forall q: nat :: q < |mems| ==> mems[q] != a && mems[q] != b && mems[q] != c && Fits(mems[q].Length, M, N, K, mTiles, nTiles, kTiles, heap)
    modifies mems, c
    ensures IsTiled(ar, c[..], a[..], b[..], old(c[..]), beta, M, N, K, TilingOf(M, N, K, mTiles, nTiles, kTiles, cores, |mems|))
  {
    if c.Length == 0 {
      NoEntries(M, N);
      return;
    }
    var t := TilingOf(M, N, K, mTiles, nTiles, kTiles, cores, |mems|);
    var share, per := Quot(t.fm, cores), Quot(mTiles, |mems|);
    var p := PlanOf(t, K, N, cores, share, heap);
    PlanGlobal(t, M, K, N, cores, share, heap);
    forall q: nat | q < |mems| ensures Local(p, mems[q].Length) {
      assert Fits(mems[q].Length, M, N, K, mTiles, nTiles, kTiles, heap);
      PlanLocal(t, K, N, cores, share, heap, mems[q].Length);
    }
    ghost var c0 := c[..];
    Whole(mTiles, |mems|);
    AllClusters(ar, mems, a, b, c, p, beta, one, per, order);
    FinishedIsTiled(ar, c[..], a[..], b[..], c0, p, beta, M, t);
  }

  /** The three tile buffers fit the cluster's memory. */
  predicate Fits(size: nat, M: nat, N: nat, K: nat, mTiles: nat, nTiles: nat, kTiles: nat, heap: nat)
    requires mTiles > 0 && nTiles > 0 && kTiles > 0
  {
    var fm, fn, fk := Quot(M, mTiles), Quot(N, nTiles), Quot(K, kTiles);
    heap + fm * fk + fk * fn + fm * fn <= size
  }

  // ----- when everything divides

  /** Entry (i, j) of C is the whole product. */
  ghost predicate ProductEntry<T>(ar: Arith<T>, c: seq<T>, a: seq<T>, b: seq<T>, c0: seq<T>, beta: T, M: nat, N: nat, K: nat, i: nat, j: nat)
    requires |c| == |c0| == M * N && |a| == M * K && |b| == K * N && i < M && j < N
  {
    TiledEntry(ar, c, a, b, c0, beta, M, N, K, K, i, j)
  }

  ghost predicate IsProduct<T>(ar: Arith<T>, c: seq<T>, a: seq<T>, b: seq<T>, c0: seq<T>, beta: T, M: nat, N: nat, K: nat)
    requires |c| == |c0| == M * N && |a| == M * K && |b| == K * N
  {
    forall i: nat, j: nat :: i < M && j < N ==> ProductEntry(ar, c, a, b, c0, beta, M, N, K, i, j)
  }

  /** The tilings divide the sizes, the cores the rows of a tile, and the clusters the m tiles. */
  predicate Divides(M: nat, N: nat, K: nat, mTiles: nat, nTiles: nat, kTiles: nat, cores: nat, clusters: nat)
    requires mTiles > 0 && nTiles > 0 && kTiles > 0 && cores > 0 && clusters > 0
  {
    M % mTiles == 0 && N % nTiles == 0 && K % kTiles == 0 && Quot(M, mTiles) % cores == 0 && mTiles % clusters == 0
  }

  /** Then C ends as the plain product, entry by entry. */
  lemma TiledIsProduct<T>(ar: Arith<T>, c: seq<T>, a: seq<T>, b: seq<T>, c0: seq<T>, beta: T, M: nat, N: nat, K: nat,
                          mTiles: nat, nTiles: nat, kTiles: nat, cores: nat, clusters: nat)
    requires mTiles > 0 && nTiles > 0 && kTiles > 0 && cores > 0 && clusters > 0 && Divides(M, N, K, mTiles, nTiles, kTiles, cores, clusters)
    requires |c| == |c0| == M * N && |a| == M * K && |b| == K * N
    requires IsTiled(ar, c, a, b, c0, beta, M, N, K, TilingOf(M, N, K, mTiles, nTiles, kTiles, cores, clusters))
    ensures IsProduct(ar, c, a, b, c0, beta, M, N, K)
  {
    var t := TilingOf(M, N, K, mTiles, nTiles, kTiles, cores, clusters);
    Whole(M, mTiles);
    Whole(N, nTiles);
    Whole(K, kTiles);
    Whole(t.fm, cores);
    Whole(mTiles, clusters);
    forall i: nat, j: nat | i < M && j < N ensures ProductEntry(ar, c, a, b, c0, beta, M, N, K, i, j) {
      var mt, r := TileOf(t.mTiles, t.fm, i);
      WorkedIs(t, mt, r);
    }
  }
}
