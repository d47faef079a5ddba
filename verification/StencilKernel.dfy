/** The streamed star stencil as it runs: one step of one core, and all cores over all steps. */
module StencilKernel {
  import opened Arithmetic
  import opened Ssr
  import opened Rotation
  import opened Stencil

  const UNROLL: nat := 2

  // ----- the coefficient stream

  function CoefAt(bound: seq<nat>, stride: seq<nat>, base: nat, t: nat, k: nat): nat
    requires |bound| == |stride| == 4
  {
    Walk(bound[..2], stride[..2], base, t + k)
  }

  /** From element t on, the stream goes through the table at address cab, each entry four times. */
  ghost predicate Feeding(l: Lane, t: nat, len: nat, cab: nat)
    reads l
  {
    && l.Valid() && |l.idx| == 2 && l.repeat == UNROLL * UNROLL - 1
    && forall k: nat :: k < len ==> CoefAt(l.bound, l.stride, l.base, t, k) == cab + 8 * k
  }

  method Weight(l: Lane, ca: seq<real>, cab: nat, ghost t: nat, ghost k: nat, ghost u: nat) returns (v: real)
    requires Feeding(l, t, |ca|, cab) && k < |ca| && u < 4 && l.served == u && l.steps == t + k
    modifies l`idx, l`ptr, l`served, l`steps
    ensures v == ca[k] && Feeding(l, t, |ca|, cab)
    ensures if u < 3 then l.served == u + 1 && l.steps == t + k else l.served == 0 && l.steps == t + k + 1
  {
    assert CoefAt(l.bound, l.stride, l.base, t, k) == cab + 8 * k;
    var address := l.Pop();
    v := ca[(address - cab) / 8];
  }

  // ----- two by two points

  /** The index tables hold the places p for the four points. */
  ghost predicate Tabled(i0: seq<int>, i1: seq<int>, p: seq<int>, n: nat) {
    && |i0| == |i1| == 2 * |p|
    && forall k: nat :: k < |p| ==> TabledAt(i0, i1, p, n, k)
  }

  ghost predicate TabledAt(i0: seq<int>, i1: seq<int>, p: seq<int>, n: nat, k: nat)
    requires |i0| == |i1| == 2 * |p| && k < |p|
  {
    i0[2 * k] == p[k] && i0[2 * k + 1] == p[k] + n && i1[2 * k] == p[k] + 1 && i1[2 * k + 1] == p[k] + n + 1
  }

  /** All four points find their operands in the grid. */
  ghost predicate InGrid(p: seq<int>, base: int, n: nat, size: nat) {
    forall k: nat :: k < |p| ==> 0 <= base + p[k] && base + p[k] + n + 1 < size
  }

  /** One indirection job of an index stream (lines 146 to 150 of istc.common.hpp): the elements of the grid at base plus
      the entries of a table, in order. */
  class IndexStream {
    const base: nat
    const table: seq<int>
    var pos: nat

    constructor (base: nat, table: seq<int>)
      ensures this.base == base && this.table == table && pos == 0
    {
      this.base, this.table, pos := base, table, 0;
    }

    method Pop(src: seq<real>) returns (x: real)
      requires pos < |table| && 0 <= base + table[pos] < |src|
      modifies this`pos
      ensures x == src[base + table[old(pos)]] && pos == old(pos) + 1
    {
      x := src[base + table[pos]];
      pos := pos + 1;
    }
  }

  /** The two index streams of a block have served k places, two points each. */
  ghost predicate Served(g0: IndexStream, g1: IndexStream, base: nat, p: seq<int>, n: nat, k: nat)
    reads g0, g1
  {
    && g0 != g1 && g0.base == g1.base == base && Tabled(g0.table, g1.table, p, n)
    && g0.pos == g1.pos == 2 * k
  }

  datatype Quad = Quad(a0: real, a1: real, a2: real, a3: real)

  /** The next four operands. */
  method Four(src: seq<real>, n: nat, g0: IndexStream, g1: IndexStream, ghost base: nat, ghost p: seq<int>, ghost k: nat) returns (x: Quad)
    requires Served(g0, g1, base, p, n, k) && InGrid(p, base, n, |src|) && k < |p|
    modifies g0`pos, g1`pos
    ensures Served(g0, g1, base, p, n, k + 1)
    ensures x == Quad(Get(src, base + p[k]), Get(src, base + 1 + p[k]), Get(src, base + n + p[k]), Get(src, base + n + 1 + p[k]))
  {
    assert TabledAt(g0.table, g1.table, p, n, k);
    assert 0 <= base + p[k] && base + p[k] + n + 1 < |src|;
    var x0 := g0.Pop(src);
    var x1 := g1.Pop(src);
    var x2 := g0.Pop(src);
    var x3 := g1.Pop(src);
    x := Quad(x0, x1, x2, x3);
  }

  /** They, times the next coefficient (lines 457 to 465). */
  method Products(src: seq<real>, n: nat, l: Lane, g0: IndexStream, g1: IndexStream, ca: seq<real>, cab: nat, ghost base: nat, ghost k: nat,
                  ghost p: seq<int>, ghost t: nat)
      returns (m: Quad)
    requires Feeding(l, t, |ca|, cab) && k < |ca| == |p| && l.served == 0 && l.steps == t + k
    requires Served(g0, g1, base, p, n, k) && InGrid(p, base, n, |src|)
    modifies l`idx, l`ptr, l`served, l`steps, g0`pos, g1`pos
    ensures Feeding(l, t, |ca|, cab) && l.served == 0 && l.steps == t + k + 1
    ensures Served(g0, g1, base, p, n, k + 1)
    ensures m.a0 == ca[k] * Get(src, base + p[k]) && m.a1 == ca[k] * Get(src, base + 1 + p[k])
    ensures m.a2 == ca[k] * Get(src, base + n + p[k]) && m.a3 == ca[k] * Get(src, base + n + 1 + p[k])
  {
    var x := Four(src, n, g0, g1, base, p, k);
    var w0 := Weight(l, ca, cab, t, k, 0);
    var w1 := Weight(l, ca, cab, t, k, 1);
    var w2 := Weight(l, ca, cab, t, k, 2);
    var w3 := Weight(l, ca, cab, t, k, 3);
    m := Quad(w0 * x.a0, w1 * x.a1, w2 * x.a2, w3 * x.a3);
  }

  function Plus4(a: Quad, b: Quad): Quad { Quad(a.a0 + b.a0, a.a1 + b.a1, a.a2 + b.a2, a.a3 + b.a3) }

  /** The four accumulators hold the first k terms of their sums. */
  ghost predicate Sums(g: seq<real>, v: seq<real>, p: seq<int>, base: int, n: nat, k: nat, a: Quad)
    requires k <= |v| == |p|
  {
    && a.a0 == Fold(g, v[..k], p[..k], base) && a.a1 == Fold(g, v[..k], p[..k], base + 1)
    && a.a2 == Fold(g, v[..k], p[..k], base + n) && a.a3 == Fold(g, v[..k], p[..k], base + n + 1)
  }

  lemma SumsStep(g: seq<real>, v: seq<real>, p: seq<int>, base: int, n: nat, k: nat, a: Quad, m: Quad)
    requires k < |v| == |p| && Sums(g, v, p, base, n, k, a)
    requires m.a0 == v[k] * Get(g, base + p[k]) && m.a1 == v[k] * Get(g, base + 1 + p[k])
    requires m.a2 == v[k] * Get(g, base + n + p[k]) && m.a3 == v[k] * Get(g, base + n + 1 + p[k])
    ensures Sums(g, v, p, base, n, k + 1, Plus4(a, m))
  {
    SumStep(g, v, p, base, k, a.a0, m.a0);
    SumStep(g, v, p, base + 1, k, a.a1, m.a1);
    SumStep(g, v, p, base + n, k, a.a2, m.a2);
    SumStep(g, v, p, base + n + 1, k, a.a3, m.a3);
  }

  lemma SumStep(g: seq<real>, v: seq<real>, p: seq<int>, base: int, k: nat, sum: real, product: real)
    requires k < |v| == |p| && sum == Fold(g, v[..k], p[..k], base) && product == v[k] * Get(g, base + p[k])
    ensures sum + product == Fold(g, v[..k + 1], p[..k + 1], base)
  {
    FoldOne(g, v[..k], p[..k], base, v[k], p[k]);
    assert v[..k] + [v[k]] == v[..k + 1] && p[..k] + [p[k]] == p[..k + 1];
  }

  /** The centre terms and the frep over the others (lines 457 to 466). All three streams are used up exactly. */
  method Gather(src: seq<real>, n: nat, l: Lane, g0: IndexStream, g1: IndexStream, ca: seq<real>, cab: nat, ghost base: nat,
                ghost p: seq<int>, ghost t: nat)
      returns (a: Quad)
    requires Feeding(l, t, |ca|, cab) && 0 < |ca| == |p| && l.served == 0 && l.steps == t
    requires Served(g0, g1, base, p, n, 0) && InGrid(p, base, n, |src|)
    modifies l`idx, l`ptr, l`served, l`steps, g0`pos, g1`pos
    ensures l.Valid() && |l.idx| == 2 && l.served == 0 && l.steps == t + |ca|
    ensures g0.pos == |g0.table| && g1.pos == |g1.table|
    ensures Sums(src, ca, p, base, n, |ca|, a)
  {
    a := Products(src, n, l, g0, g1, ca, cab, base, 0, p, t);
    SumsStep(src, ca, p, base, n, 0, Quad(0.0, 0.0, 0.0, 0.0), a);
    for k := 1 to |ca|
      invariant Feeding(l, t, |ca|, cab) && l.served == 0 && l.steps == t + k
      invariant Served(g0, g1, base, p, n, k) && Sums(src, ca, p, base, n, k, a)
    {
      var m := Products(src, n, l, g0, g1, ca, cab, base, k, p, t);
      SumsStep(src, ca, p, base, n, k, a, m);
      a := Plus4(a, m);
    }
  }

  /** The shape, the index tables, and the coefficient table with its address; `places` is what the tables are made of. */
  datatype Kit = Kit(s: Shape, i0: seq<int>, i1: seq<int>, ca: seq<real>, cab: nat, ghost places: seq<int>)

  ghost predicate Ready(k: Kit, c: Coefs) {
    match k
    case Kit(s, i0, i1, ca, cab, p) =>
      && Legal(s) && Fit(c, s.r) && 0 < |ca| == |p| && cab + 8 * |ca| <= WORD
      && Tabled(i0, i1, p, s.n) && Inside(s, p) && Sound(s, c, ca, p)
  }

  /** From any corner of the inner grid, the places are in the grid. */
  ghost predicate Inside(s: Shape, p: seq<int>) {
    forall y: nat, x: nat, base: int :: Inner(s, y, x) && Inner(s, y + 1, x + 1) && Corner(s, y, x, base) ==>
      base >= 0 && InGrid(p, base, s.n, s.n * s.n)
  }

  /** Four full sums from a corner are the stencil at the four points. */
  ghost predicate Sound(s: Shape, c: Coefs, v: seq<real>, p: seq<int>)
    requires Fit(c, s.r) && |v| == |p|
  {
    forall g: seq<real>, y: nat, x: nat, base: int, a: Quad :: Corner(s, y, x, base) && Sums(g, v, p, base, s.n, |v|, a) ==>
      Stars(s, c, g, y, x, a)
  }

  lemma TablesReady(k: Kit, c: Coefs)
    requires Legal(k.s) && Fit(c, k.s.r) && k.ca == Values(c, k.s.r) && k.places == Places(k.s, k.s.r) && k.cab + 8 * |k.ca| <= WORD
    requires k.i0 == Pairs(k.places, 0, k.s.n) && k.i1 == Pairs(k.places, 1, k.s.n + 1)
    ensures Ready(k, c)
  {
    TablesTabled(k.i0, k.i1, k.places, k.s.n);
    PlacesInside(k.s);
    PlacesSound(k.s, c);
  }

  lemma TablesTabled(i0: seq<int>, i1: seq<int>, p: seq<int>, n: nat)
    requires i0 == Pairs(p, 0, n) && i1 == Pairs(p, 1, n + 1)
    ensures Tabled(i0, i1, p, n)
  {
    forall k: nat | k < |p|
      ensures TabledAt(i0, i1, p, n, k)
    {
      PairsAt(p, 0, n, k);
      PairsAt(p, 1, n + 1, k);
    }
  }

  lemma PlacesInside(s: Shape)
    ensures Inside(s, Places(s, s.r))
  {
    forall y: nat, x: nat, base: int | Inner(s, y, x) && Inner(s, y + 1, x + 1) && Corner(s, y, x, base)
      ensures base >= 0 && InGrid(Places(s, s.r), base, s.n, s.n * s.n)
    {
      CornerInGrid(s, y, x, base);
    }
  }

  lemma PlacesSound(s: Shape, c: Coefs)
    requires Fit(c, s.r)
    ensures Sound(s, c, Values(c, s.r), Places(s, s.r))
  {
    var v, p := Values(c, s.r), Places(s, s.r);
    forall g: seq<real>, y: nat, x: nat, base: int, a: Quad | Corner(s, y, x, base) && Sums(g, v, p, base, s.n, |v|, a)
      ensures Stars(s, c, g, y, x, a)
    {
      SumsAreStars(s, c, g, y, x, base, a);
    }
  }

  /** The inner points along an edge. */
  function Edge(s: Shape): int { s.n - 2 * s.r }

  /** base is the corner of the stencil at (y, x). */
  ghost predicate Corner(s: Shape, y: nat, x: nat, base: int) { base == At(s.n, y - s.r, x - s.r) }

  lemma Corners(s: Shape, y: nat, x: nat, base: int)
    requires Corner(s, y, x, base)
    ensures Corner(s, y, x + 1, base + 1) && Corner(s, y + 1, x, base + s.n) && Corner(s, y + 1, x + 1, base + s.n + 1)
  {
    assert (y + 1 - s.r) * s.n == (y - s.r) * s.n + s.n;
  }

  lemma CornerInGrid(s: Shape, y: nat, x: nat, base: int)
    requires Inner(s, y, x) && Inner(s, y + 1, x + 1) && Corner(s, y, x, base)
    ensures base >= 0 && InGrid(Places(s, s.r), base, s.n, s.n * s.n)
  {
    AtInside(s.n, y - s.r, x - s.r);
    Corners(s, y, x, base);
    forall k: nat | k < |Places(s, s.r)|
      ensures 0 <= base + Places(s, s.r)[k] && base + Places(s, s.r)[k] + s.n + 1 < s.n * s.n
    {
      Gathers(s, y, x, s.r, k);
      Gathers(s, y + 1, x + 1, s.r, k);
    }
  }

  lemma Launch(s: Shape, y: nat, x: nat, base: int, p: seq<int>)
    requires y + 1 < Edge(s) && x + 1 < Edge(s) && base == At(s.n, y, x) && Inside(s, p)
    ensures Corner(s, y + s.r, x + s.r, base) && base >= 0 && InGrid(p, base, s.n, s.n * s.n)
  {
    assert Inner(s, y + s.r, x + s.r) && Inner(s, y + s.r + 1, x + s.r + 1) && Corner(s, y + s.r, x + s.r, base);
  }

  /** The four sums are the stencil at the four points. */
  lemma SumsAreStars(s: Shape, c: Coefs, g: seq<real>, y: nat, x: nat, base: int, a: Quad)
    requires Fit(c, s.r) && Corner(s, y, x, base)
    requires Sums(g, Values(c, s.r), Places(s, s.r), base, s.n, |Values(c, s.r)|, a)
    ensures Stars(s, c, g, y, x, a)
  {
    Whole(Values(c, s.r), Places(s, s.r));
    Corners(s, y, x, base);
    CornerStar(s, c, g, y, x, base);
    CornerStar(s, c, g, y, x + 1, base + 1);
    CornerStar(s, c, g, y + 1, x, base + s.n);
    CornerStar(s, c, g, y + 1, x + 1, base + s.n + 1);
  }

  lemma CornerStar(s: Shape, c: Coefs, g: seq<real>, y: nat, x: nat, base: int)
    requires Fit(c, s.r) && Corner(s, y, x, base)
    ensures Fold(g, Values(c, s.r), Places(s, s.r), base) == Star(c, g, s.n, y, x, s.r)
  {
    FoldIsStar(s, c, g, y, x, s.r);
  }

  lemma Whole(v: seq<real>, p: seq<int>)
    requires |v| == |p|
    ensures v[..|v|] == v && p[..|v|] == p
  {}

  ghost predicate Stars(s: Shape, c: Coefs, g: seq<real>, y: nat, x: nat, a: Quad)
    requires Fit(c, s.r)
  {
    && a.a0 == Star(c, g, s.n, y, x, s.r) && a.a1 == Star(c, g, s.n, y, x + 1, s.r)
    && a.a2 == Star(c, g, s.n, y + 1, x, s.r) && a.a3 == Star(c, g, s.n, y + 1, x + 1, s.r)
  }

  /** The two by two points with the inner corner (y, x) are drawn. */
  function Block(done: Done, y: nat, x: nat): Done { Plus(Plus(Plus(Plus(done, y, x), y, x + 1), y + 1, x), y + 1, x + 1) }

  /** One stored point. */
  method Store(dst: array<real>, s: Shape, y: nat, x: nat, v: real, ghost c: Coefs, ghost src: seq<real>, ghost was: seq<real>, ghost done: Done)
    requires Fit(c, s.r) && y < s.n && x < s.n && v == Star(c, src, s.n, y, x, s.r)
    requires Painted(s, c, src, was, dst[..], done)
    modifies dst
    ensures Painted(s, c, src, was, dst[..], Plus(done, y, x))
  {
    AtInside(s.n, y, x);
    ghost var now := dst[..];
    dst[At(s.n, y, x)] := v;
    PaintOne(s, c, src, was, now, done, y, x, v, dst[..]);
  }

  /** Two by two points: gather, accumulate and store (lines 453 to 475). */
  method Draw(src: seq<real>, dst: array<real>, k: Kit, l: Lane, y: nat, x: nat, ghost c: Coefs, ghost was: seq<real>,
              ghost done: Done, ghost t: nat)
    requires Ready(k, c) && |src| == k.s.n * k.s.n && y + 1 < Edge(k.s) && x + 1 < Edge(k.s)
    requires Feeding(l, t, |k.ca|, k.cab) && l.served == 0 && l.steps == t
    requires Painted(k.s, c, src, was, dst[..], done)
    modifies dst, l`idx, l`ptr, l`served, l`steps
    ensures l.Valid() && |l.idx| == 2 && l.served == 0 && l.steps == t + |k.ca|
    ensures Painted(k.s, c, src, was, dst[..], Block(done, y + k.s.r, x + k.s.r))
  {
    var base := At(k.s.n, y, x);
    Launch(k.s, y, x, base, k.places);
    DrawAt(src, dst, k, l, base, y + k.s.r, x + k.s.r, c, was, done, t);
  }

  method DrawAt(src: seq<real>, dst: array<real>, k: Kit, l: Lane, base: nat, y: nat, x: nat, ghost c: Coefs, ghost was: seq<real>,
                ghost done: Done, ghost t: nat)
    requires Ready(k, c) && y + 1 < k.s.n && x + 1 < k.s.n
    requires Corner(k.s, y, x, base) && InGrid(k.places, base, k.s.n, |src|)
    requires Feeding(l, t, |k.ca|, k.cab) && l.served == 0 && l.steps == t
    requires Painted(k.s, c, src, was, dst[..], done)
    modifies dst, l`idx, l`ptr, l`served, l`steps
    ensures l.Valid() && |l.idx| == 2 && l.served == 0 && l.steps == t + |k.ca|
    ensures Painted(k.s, c, src, was, dst[..], Block(done, y, x))
  {
    var a := Operands(src, k, l, base, y, x, c, t);
    Stores(dst, k.s, y, x, a, c, src, was, done);
  }

  /** The index streams run over the source grid from base (line 453). */
  method Operands(src: seq<real>, k: Kit, l: Lane, base: nat, ghost y: nat, ghost x: nat, ghost c: Coefs, ghost t: nat) returns (a: Quad)
    requires Ready(k, c) && Corner(k.s, y, x, base) && InGrid(k.places, base, k.s.n, |src|)
    requires Feeding(l, t, |k.ca|, k.cab) && l.served == 0 && l.steps == t
    modifies l`idx, l`ptr, l`served, l`steps
    ensures l.Valid() && |l.idx| == 2 && l.served == 0 && l.steps == t + |k.ca|
    ensures Stars(k.s, c, src, y, x, a)
  {
    var g0 := new IndexStream(base, k.i0);
    var g1 := new IndexStream(base, k.i1);
    a := Gather(src, k.s.n, l, g0, g1, k.ca, k.cab, base, k.places, t);
  }

  method Stores(dst: array<real>, s: Shape, y: nat, x: nat, a: Quad, ghost c: Coefs, ghost src: seq<real>, ghost was: seq<real>, ghost done: Done)
    requires Fit(c, s.r) && y + 1 < s.n && x + 1 < s.n
    requires Stars(s, c, src, y, x, a)
    requires Painted(s, c, src, was, dst[..], done)
    modifies dst
    ensures Painted(s, c, src, was, dst[..], Block(done, y, x))
  {
    Store(dst, s, y, x, a.a0, c, src, was, done);
    Store(dst, s, y, x + 1, a.a1, c, src, was, Plus(done, y, x));
    Store(dst, s, y + 1, x, a.a2, c, src, was, Plus(Plus(done, y, x), y, x + 1));
    Store(dst, s, y + 1, x + 1, a.a3, c, src, was, Plus(Plus(Plus(done, y, x), y, x + 1), y + 1, x));
  }

  // ----- a row of blocks

  /** The block a row or column of the grid belongs to. */
  function BlockOf(s: Shape, y: nat): nat { if y < s.r then 0 else (y - s.r) / 2 }

  /** How many blocks of a row a core draws that starts at lx and moves by jump (line 450). */
  function Count(edge: int, jump: nat, lx: nat): int
    requires jump > 0
  {
    (edge + jump - lx - UNROLL) / jump
  }

  /** It is the number of iterations of the loop over x. */
  lemma Counted(edge: int, jump: nat, lx: nat, e: nat, x: nat)
    requires jump > 0 && x == lx + e * jump && edge % 2 == 0 && jump % 2 == 0 && x % 2 == 0
    ensures x < edge <==> e < Count(edge, jump, lx)
  {
    var z := edge - UNROLL - x;
    assert edge + jump - lx - UNROLL == (e + 1) * jump + z by { assert (e + 1) * jump == e * jump + jump; }
    assert edge + jump - lx - UNROLL == Count(edge, jump, lx) * jump + (edge + jump - lx - UNROLL) % jump;
    var f := Count(edge, jump, lx) - (e + 1);
    assert f * jump == Count(edge, jump, lx) * jump - (e + 1) * jump;
    MulFar(f, jump);
  }

  /** Blocks of row b drawn so far, for a core in columns ix, ix + px, ...: those before column a. */
  function RowDone(s: Shape, done: Done, b: nat, bx: nat, a: nat): Done
    requires s.px > 0
  {
    (y: nat, x: nat) => done(y, x) || (Inner(s, y, x) && BlockOf(s, y) == b && Place(BlockOf(s, x), s.px) == bx && BlockOf(s, x) < a)
  }

  lemma RowStep(s: Shape, done: Done, b: nat, bx: nat, a: nat, y: nat, x: nat)
    requires Legal(s) && Place(a, s.px) == bx && 2 * a + 1 < Edge(s) && 2 * b + 1 < Edge(s)
    ensures Block(RowDone(s, done, b, bx, a), 2 * b + s.r, 2 * a + s.r)(y, x) == RowDone(s, done, b, bx, a + s.px)(y, x)
  {
    var hit := (y == 2 * b + s.r || y == 2 * b + s.r + 1) && (x == 2 * a + s.r || x == 2 * a + s.r + 1);
    assert Block(RowDone(s, done, b, bx, a), 2 * b + s.r, 2 * a + s.r)(y, x) == (RowDone(s, done, b, bx, a)(y, x) || hit);
    assert hit <==> Inner(s, y, x) && BlockOf(s, y) == b && BlockOf(s, x) == a;
    if Inner(s, y, x) && a <= BlockOf(s, x) < a + s.px && Place(BlockOf(s, x), s.px) == bx {
      NoneBetween(a, s.px, BlockOf(s, x));
    }
  }

  /** The registers hold the nest of `count` passes over a table of len entries. */
  ghost predicate Programmed(l: Lane, len: nat, count: nat)
    requires len > 0 && count > 0
    reads l
  {
    && l.Configured() && l.repeat == UNROLL * UNROLL - 1
    && l.bound[..2] == [len - 1, count - 1] && l.stride[..2] == Wraps(Deltas(l.bound[..2], [8, 0], 0))
  }

  lemma CoefFeeds(bound: seq<nat>, stride: seq<nat>, len: nat, count: nat, cab: nat, e: nat, t: nat, k: nat)
    requires |bound| == |stride| == 4 && 0 < len && e < count && bound[..2] == [len - 1, count - 1] && cab + 8 * len <= WORD
    requires stride[..2] == Wraps(Deltas(bound[..2], [8, 0], 0)) && t == len * e && k < len
    ensures CoefAt(bound, stride, cab, t, k) == cab + 8 * k
  {
    Element2(bound[..2], stride[..2], [8, 0], cab, k, e);
    assert Wrap(cab + k * 8 + e * 0) == cab + 8 * k;
  }

  /** The configuration before a row (line 450). */
  method Program(l: Lane, len: nat, count: nat)
    requires l.Configured() && l.repeat == UNROLL * UNROLL - 1 && 0 < len < WORD && count < WORD
    modifies l
    ensures l.Configured() && l.repeat == UNROLL * UNROLL - 1 && (count > 0 ==> Programmed(l, len, count))
  {
    l.Loop2d(len, count, 8, 0);
    assert Wrap(len - 1) == len - 1;
    if count > 0 {
      assert Wrap(count - 1) == count - 1;
      assert l.bound[..2] == [len - 1, count - 1];
    }
  }

  predicate Moves(f: nat -> nat, e: nat, d: nat) { f(e + 1) == f(e) + d }

  /** Iteration e of the loop over x is at col(e), and there are count. */
  ghost predicate Trips(col: nat -> nat, edge: int, p: nat, lx: nat, count: nat) {
    && col(0) == lx && (forall e: nat :: Moves(col, e, 2 * p))
    && forall e: nat :: (col(e) < edge <==> e < count) && (col(e) + 1 < edge <==> e < count)
  }

  lemma CountTrips(col: nat -> nat, edge: int, p: nat, lx: nat, count: nat)
    requires 0 < p && edge % 2 == 0 && lx % 2 == 0 && count == Count(edge, p * UNROLL, lx)
    requires forall e: nat :: col(e) == lx + e * (2 * p)
    ensures Trips(col, edge, p, lx, count)
  {
    assert col(0) == lx + 0 * (2 * p);
    forall e: nat
      ensures Moves(col, e, 2 * p) && (col(e) < edge <==> e < count) && (col(e) + 1 < edge <==> e < count)
    {
      assert (e + 1) * (2 * p) == e * (2 * p) + 2 * p;
      assert e * (2 * p) == 2 * (e * p);
      Counted(edge, p * UNROLL, lx, e, col(e));
    }
  }

  /** The stream registers produce the coefficient table count times, from element at(0) = 0, at(1), ... on. */
  ghost predicate Tape(l: Lane, at: nat -> nat, count: nat, len: nat, cab: nat)
    reads l`bound, l`stride
  {
    && at(0) == 0 && (forall e: nat :: Moves(at, e, len)) && |l.bound| == |l.stride| == 4
    && forall e: nat, k: nat :: e < count && k < len ==> CoefAt(l.bound, l.stride, cab, at(e), k) == cab + 8 * k
  }

  lemma ProgrammedTape(l: Lane, at: nat -> nat, count: nat, len: nat, cab: nat)
    requires 0 < len && 0 < count && Programmed(l, len, count) && cab + 8 * len <= WORD
    requires forall e: nat :: at(e) == len * e
    ensures Tape(l, at, count, len, cab)
  {
    assert at(0) == len * 0;
    forall e: nat
      ensures Moves(at, e, len)
    {
      assert len * (e + 1) == len * e + len;
    }
    forall e: nat, k: nat | e < count && k < len
      ensures CoefAt(l.bound, l.stride, cab, at(e), k) == cab + 8 * k
    {
      CoefFeeds(l.bound, l.stride, len, count, cab, e, at(e), k);
    }
  }

  /** The registers that stay as they are during a row. */
  ghost predicate Fixed(l: Lane, at: nat -> nat, count: nat, len: nat, cab: nat)
    reads l`bound, l`stride, l`repeat
  {
    && Tape(l, at, count, len, cab) && l.repeat == UNROLL * UNROLL - 1
    && forall i :: 0 <= i < 4 ==> l.bound[i] < WORD && l.stride[i] < WORD
  }

  /** The stream stands before pass e; it is started with the first. */
  ghost predicate Streaming(l: Lane, at: nat -> nat, cab: nat, e: nat, winit: bool)
    reads l
  {
    && winit == (e == 0)
    && (!winit ==> l.Valid() && |l.idx| == 2 && l.base == cab && l.served == 0 && l.steps == at(e))
  }

  method StartOnce(l: Lane, ghost at: nat -> nat, ghost count: nat, ghost len: nat, cab: nat, ghost e: nat, winit: bool)
    requires Fixed(l, at, count, len, cab) && Streaming(l, at, cab, e, winit) && e < count && cab < WORD
    modifies l`idx, l`ptr, l`served, l`base, l`steps
    ensures Feeding(l, at(e), len, cab) && l.base == cab && l.served == 0 && l.steps == at(e)
  {
    if winit {
      l.Read(2, cab);
    }
  }

  lemma RowPainted(s: Shape, c: Coefs, src: seq<real>, was: seq<real>, now: seq<real>, done: Done, b: nat, bx: nat, a: nat)
    requires Legal(s) && Fit(c, s.r) && Place(a, s.px) == bx && 2 * a + 1 < Edge(s) && 2 * b + 1 < Edge(s)
    requires Painted(s, c, src, was, now, Block(RowDone(s, done, b, bx, a), 2 * b + s.r, 2 * a + s.r))
    ensures Painted(s, c, src, was, now, RowDone(s, done, b, bx, a + s.px))
  {
    var f, g := Block(RowDone(s, done, b, bx, a), 2 * b + s.r, 2 * a + s.r), RowDone(s, done, b, bx, a + s.px);
    forall y: nat, x: nat | y < s.n && x < s.n ensures f(y, x) == g(y, x) {
      RowStep(s, done, b, bx, a, y, x);
    }
    Repaint(s, c, src, was, now, f, g);
  }

  method Pass(src: seq<real>, dst: array<real>, k: Kit, l: Lane, y: nat, x: nat, winit: bool, ghost c: Coefs, ghost was: seq<real>,
              ghost done: Done, ghost at: nat -> nat, ghost count: nat, ghost e: nat)
    requires Ready(k, c) && |src| == k.s.n * k.s.n && e < count
    requires Fixed(l, at, count, |k.ca|, k.cab) && Streaming(l, at, k.cab, e, winit) && y + 1 < Edge(k.s) && x + 1 < Edge(k.s)
    requires Painted(k.s, c, src, was, dst[..], done)
    modifies dst, l`idx, l`ptr, l`served, l`base, l`steps
    ensures Streaming(l, at, k.cab, e + 1, false)
    ensures Painted(k.s, c, src, was, dst[..], Block(done, y + k.s.r, x + k.s.r))
  {
    assert Moves(at, e, |k.ca|);
    StartOnce(l, at, count, |k.ca|, k.cab, e, winit);
    Draw(src, dst, k, l, y, x, c, was, done, at(e));
  }

  /** One iteration of the loop over x. */
  method Column(src: seq<real>, dst: array<real>, k: Kit, l: Lane, y: nat, x: nat, winit: bool, ghost c: Coefs, ghost was: seq<real>,
                ghost done: Done, ghost b: nat, ghost bx: nat, ghost at: nat -> nat, ghost count: nat, ghost a: nat, ghost e: nat)
    requires Ready(k, c) && |src| == k.s.n * k.s.n && y == 2 * b && y + 1 < Edge(k.s) && x == 2 * a && x + 1 < Edge(k.s) && e < count
    requires Fixed(l, at, count, |k.ca|, k.cab) && Streaming(l, at, k.cab, e, winit) && Place(a, k.s.px) == bx
    requires Painted(k.s, c, src, was, dst[..], RowDone(k.s, done, b, bx, a))
    modifies dst, l`idx, l`ptr, l`served, l`base, l`steps
    ensures Streaming(l, at, k.cab, e + 1, false)
    ensures Painted(k.s, c, src, was, dst[..], RowDone(k.s, done, b, bx, a + k.s.px))
  {
    Pass(src, dst, k, l, y, x, winit, c, was, RowDone(k.s, done, b, bx, a), at, count, e);
    RowPainted(k.s, c, src, was, dst[..], done, b, bx, a);
  }

  /** The loop over x. */
  method Columns(src: seq<real>, dst: array<real>, k: Kit, l: Lane, y: nat, lx: nat, ghost c: Coefs, ghost was: seq<real>,
                 ghost done: Done, ghost b: nat, ghost bx: nat, ghost col: nat -> nat, ghost at: nat -> nat, ghost count: nat)
      returns (ghost a: nat)
    requires Ready(k, c) && |src| == k.s.n * k.s.n && y == 2 * b && y + 1 < Edge(k.s) && lx < Edge(k.s) && lx == 2 * bx && bx < k.s.px
    requires Trips(col, Edge(k.s), k.s.px, lx, count) && Fixed(l, at, count, |k.ca|, k.cab)
    requires Painted(k.s, c, src, was, dst[..], RowDone(k.s, done, b, bx, bx))
    modifies dst, l`idx, l`ptr, l`served, l`base, l`steps
    ensures l.served == 0 && l.steps == at(count)
    ensures Edge(k.s) <= 2 * a && Painted(k.s, c, src, was, dst[..], RowDone(k.s, done, b, bx, a))
  {
    var x, winit := lx, true;
    ghost var e := 0;
    a := bx;
    while x < Edge(k.s)
      invariant x == 2 * a == col(e) && Place(a, k.s.px) == bx && e <= count
      invariant Streaming(l, at, k.cab, e, winit)
      invariant Painted(k.s, c, src, was, dst[..], RowDone(k.s, done, b, bx, a))
    {
      NextTrip(col, Edge(k.s), k.s.px, lx, count, e, a);
      Column(src, dst, k, l, y, x, winit, c, was, done, b, bx, at, count, a, e);
      winit := false;
      x, a, e := x + k.s.px * UNROLL, a + k.s.px, e + 1;
    }
  }

  lemma NextTrip(col: nat -> nat, edge: int, p: nat, lx: nat, count: nat, e: nat, a: nat)
    requires 0 < p && Trips(col, edge, p, lx, count) && col(e) < edge
    ensures col(e + 1) == col(e) + 2 * p && e < count && Place(a + p, p) == Place(a, p) && col(e) + 1 < edge
  {
    assert Moves(col, e, 2 * p);
  }

  lemma CountRange(edge: int, jump: nat, lx: nat)
    requires 0 <= edge < 0x1_0000 && edge % 2 == 0 && jump % 2 == 0 && lx % 2 == 0 && lx < jump
    ensures 0 <= Count(edge, jump, lx) < WORD && (lx < edge <==> 0 < Count(edge, jump, lx))
  {
    assert 0 * jump == 0;
    Counted(edge, jump, lx, 0, lx);
    var q := Count(edge, jump, lx);
    assert edge + jump - lx - UNROLL == q * jump + (edge + jump - lx - UNROLL) % jump;
    MulFar(q, jump);
    if q >= WORD {
      MulBig(q, jump);
    }
  }

  lemma MulBig(q: nat, jump: nat)
    requires q >= WORD && jump > 0
    ensures q * jump >= WORD * jump && q * jump - jump >= WORD - 1
  {
    assert (q - WORD) * jump >= 0;
    assert (jump - 1) * (WORD - 1) >= 0;
  }

  /** The iterations of the loop over x, and where the coefficient stream is in each. */
  lemma RowPlan(l: Lane, col: nat -> nat, at: nat -> nat, edge: int, p: nat, lx: nat, count: nat, len: nat, cab: nat)
    requires 0 < p && edge % 2 == 0 && lx % 2 == 0 && lx < edge && count == Count(edge, p * UNROLL, lx)
    requires 0 < len && cab + 8 * len <= WORD && (count > 0 ==> Programmed(l, len, count))
    requires (forall e: nat :: col(e) == lx + e * (2 * p)) && forall e: nat :: at(e) == len * e
    ensures Trips(col, edge, p, lx, count) && Tape(l, at, count, len, cab)
  {
    CountTrips(col, edge, p, lx, count);
    assert col(0) == lx + 0 * (2 * p);
    ProgrammedTape(l, at, count, len, cab);
  }

  function PassAt(len: nat): nat -> nat { (e: nat) => len * e }
  function ColumnAt(lx: nat, p: nat): nat -> nat { (e: nat) => lx + e * (2 * p) }

  /** The configuration for one row (line 450). */
  method Configure(k: Kit, l: Lane, lx: nat, ghost c: Coefs, ghost bx: nat) returns (ghost count: nat, ghost col: nat -> nat, ghost at: nat -> nat)
    requires Ready(k, c) && l.Configured() && l.repeat == UNROLL * UNROLL - 1 && lx == 2 * bx && bx < k.s.px && 0 <= Edge(k.s)
    modifies l
    ensures l.Configured() && l.repeat == UNROLL * UNROLL - 1
    ensures lx < Edge(k.s) ==> && Fixed(l, at, count, |k.ca|, k.cab) && Trips(col, Edge(k.s), k.s.px, lx, count)
                               && at(count) == |k.ca| * Count(Edge(k.s), k.s.px * UNROLL, lx)
  {
    CountRange(Edge(k.s), k.s.px * UNROLL, lx);
    var n := Count(Edge(k.s), k.s.px * UNROLL, lx);
    Program(l, |k.ca|, n);
    count, col, at := n, ColumnAt(lx, k.s.px), PassAt(|k.ca|);
    if lx < Edge(k.s) {
      RowPlan(l, col, at, Edge(k.s), k.s.px, lx, n, |k.ca|, k.cab);
    }
  }

  /** The blocks of one row (lines 450 to 476). The stream of coefficients is used up exactly. */
  method Row(src: seq<real>, dst: array<real>, k: Kit, l: Lane, y: nat, lx: nat, ghost c: Coefs, ghost was: seq<real>, ghost done: Done,
             ghost b: nat, ghost bx: nat)
      returns (ghost a: nat)
    requires Ready(k, c) && |src| == k.s.n * k.s.n && l.Configured() && l.repeat == UNROLL * UNROLL - 1
    requires y == 2 * b && y + 1 < Edge(k.s) && lx == 2 * bx && bx < k.s.px
    requires Painted(k.s, c, src, was, dst[..], RowDone(k.s, done, b, bx, bx))
    modifies dst, l
    ensures l.Configured() && l.repeat == UNROLL * UNROLL - 1
    ensures lx < Edge(k.s) ==> l.served == 0 && l.steps == |k.ca| * Count(Edge(k.s), k.s.px * UNROLL, lx)
    ensures Edge(k.s) <= 2 * a && Painted(k.s, c, src, was, dst[..], RowDone(k.s, done, b, bx, a))
  {
    ghost var count, col, at := Configure(k, l, lx, c, bx);
    a := bx;
    if lx < Edge(k.s) {
      a := Columns(src, dst, k, l, y, lx, c, was, done, b, bx, col, at, count);
    }
  }

  // ----- one time step of one core

  function DealOf(s: Shape): Deal { Deal(s.px, s.py, if Edge(s) <= 0 then 0 else Edge(s) / 2) }

  /** `done`, and what core (ix, iy) draws in step t in rows of blocks before b. */
  function StepDone(s: Shape, done: Done, ix: nat, iy: nat, t: nat, b: nat): Done
    requires Legal(s) && ix < s.px && iy < s.py
  {
    (y: nat, x: nat) =>
      done(y, x) || (Inner(s, y, x) && Draws(DealOf(s), ix, iy, t, BlockOf(s, y), BlockOf(s, x)) && BlockOf(s, y) < b)
  }

  /** Nothing of row b is drawn yet. */
  lemma RowFresh(s: Shape, c: Coefs, src: seq<real>, was: seq<real>, now: seq<real>, done: Done, b: nat, bx: nat)
    requires Legal(s) && Fit(c, s.r) && bx < s.px && Painted(s, c, src, was, now, done)
    ensures Painted(s, c, src, was, now, RowDone(s, done, b, bx, bx))
  {
    var f := RowDone(s, done, b, bx, bx);
    forall y: nat, x: nat | y < s.n && x < s.n ensures done(y, x) == f(y, x) {
    }
    Repaint(s, c, src, was, now, done, f);
  }

  lemma StepStep(s: Shape, done: Done, ix: nat, iy: nat, t: nat, b: nat, a: nat, y: nat, x: nat)
    requires Legal(s) && ix < s.px && iy < s.py && Place(b, s.py) == RowAt(DealOf(s), iy, t) && Edge(s) <= 2 * a
    ensures RowDone(s, StepDone(s, done, ix, iy, t, b), b, ColAt(DealOf(s), ix, iy, t, b), a)(y, x)
            == StepDone(s, done, ix, iy, t, b + s.py)(y, x)
  {
    var d, q := DealOf(s), BlockOf(s, y);
    var mine := Inner(s, y, x) && Draws(d, ix, iy, t, q, BlockOf(s, x));
    assert Inner(s, y, x) ==> BlockOf(s, x) < a;
    assert StepDone(s, done, ix, iy, t, b)(y, x) == (done(y, x) || (mine && q < b));
    assert StepDone(s, done, ix, iy, t, b + s.py)(y, x) == (done(y, x) || (mine && q < b + s.py));
    if mine && b <= q < b + s.py {
      NoneBetween(b, s.py, q);
    }
  }

  lemma StepPainted(s: Shape, c: Coefs, src: seq<real>, was: seq<real>, now: seq<real>, done: Done, ix: nat, iy: nat, t: nat, b: nat, a: nat)
    requires Legal(s) && Fit(c, s.r) && ix < s.px && iy < s.py && Place(b, s.py) == RowAt(DealOf(s), iy, t) && Edge(s) <= 2 * a
    requires Painted(s, c, src, was, now, RowDone(s, StepDone(s, done, ix, iy, t, b), b, ColAt(DealOf(s), ix, iy, t, b), a))
    ensures Painted(s, c, src, was, now, StepDone(s, done, ix, iy, t, b + s.py))
  {
    var f, g := RowDone(s, StepDone(s, done, ix, iy, t, b), b, ColAt(DealOf(s), ix, iy, t, b), a), StepDone(s, done, ix, iy, t, b + s.py);
    forall y: nat, x: nat | y < s.n && x < s.n ensures f(y, x) == g(y, x) {
      StepStep(s, done, ix, iy, t, b, a, y, x);
    }
    Repaint(s, c, src, was, now, f, g);
  }

  /** Where a core stands between steps. */
  ghost predicate Stands(s: Shape, ix: nat, iy: nat, t: nat, lx: nat, ly: nat) {
    && Legal(s) && ix < s.px && iy < s.py
    && ly == 2 * RowAt(DealOf(s), iy, t) && lx == 2 * Shift(ix, s.px, Turned(DealOf(s), iy, t))
  }

  /** The loop over y is at row b of blocks. */
  ghost predicate AtRow(s: Shape, ix: nat, iy: nat, t: nat, lx: nat, y: nat, b: nat)
    requires Legal(s) && ix < s.px && iy < s.py
  {
    var d := DealOf(s);
    && y == 2 * b && Place(b, s.py) == RowAt(d, iy, t) && lx == 2 * ColAt(d, ix, iy, t, b)
    && Exit(b, d.w, s.py) == Exit(RowAt(d, iy, t), d.w, s.py)
  }

  lemma FirstRow(s: Shape, ix: nat, iy: nat, t: nat, lx: nat, ly: nat)
    requires Stands(s, ix, iy, t, lx, ly)
    ensures AtRow(s, ix, iy, t, lx, ly, RowAt(DealOf(s), iy, t))
  {
  }

  lemma NextRow(s: Shape, ix: nat, iy: nat, t: nat, lx: nat, y: nat, b: nat)
    requires Legal(s) && ix < s.px && iy < s.py && AtRow(s, ix, iy, t, lx, y, b) && y < Edge(s)
    ensures lx < 2 * s.px && AtRow(s, ix, iy, t, Next(lx, s.px), y + s.py * UNROLL, b + s.py)
  {
    NextTurns(ColAt(DealOf(s), ix, iy, t, b), s.px);
    ShiftBack(ix, s.px, Turned(DealOf(s), iy, t) != Odd(Round(b, s.py)));
  }

  lemma LastRow(s: Shape, ix: nat, iy: nat, t: nat, lx: nat, ly: nat, y: nat, b: nat)
    requires Legal(s) && ix < s.px && iy < s.py && AtRow(s, ix, iy, t, lx, y, b) && y >= Edge(s) && ly == 2 * RowAt(DealOf(s), iy, t)
    ensures ly < 2 * s.py && Stands(s, ix, iy, t + 1, lx, Next(ly, s.py))
  {
    NextTurns(RowAt(DealOf(s), iy, t), s.py);
    ShiftBack(iy, s.py, Odd(t));
  }

  /** One row of blocks, and the update of the first column (lines 450 to 477). */
  method StepRow(src: seq<real>, dst: array<real>, k: Kit, l: Lane, y: nat, lx: nat, ghost c: Coefs, ghost was: seq<real>, ghost done: Done,
                 ghost ix: nat, ghost iy: nat, ghost t: nat, ghost b: nat)
      returns (lx': nat)
    requires Ready(k, c) && |src| == k.s.n * k.s.n && l.Configured() && l.repeat == UNROLL * UNROLL - 1
    requires ix < k.s.px && iy < k.s.py && AtRow(k.s, ix, iy, t, lx, y, b) && y < Edge(k.s)
    requires Painted(k.s, c, src, was, dst[..], StepDone(k.s, done, ix, iy, t, b))
    modifies dst, l
    ensures l.Configured() && l.repeat == UNROLL * UNROLL - 1
    ensures lx < 2 * k.s.px && lx' == Next(lx, k.s.px)
    ensures Painted(k.s, c, src, was, dst[..], StepDone(k.s, done, ix, iy, t, b + k.s.py))
  {
    ghost var d, bx := StepDone(k.s, done, ix, iy, t, b), ColAt(DealOf(k.s), ix, iy, t, b);
    RowFresh(k.s, c, src, was, dst[..], d, b, bx);
    ghost var a := Row(src, dst, k, l, y, lx, c, was, d, b, bx);
    StepPainted(k.s, c, src, was, dst[..], done, ix, iy, t, b, a);
    lx' := Rotate(lx, k.s.px);
  }

  /** One time step of core (ix, iy) (lines 449 to 479). */
  method Step(src: seq<real>, dst: array<real>, k: Kit, l: Lane, lx: nat, ly: nat, ghost c: Coefs, ghost was: seq<real>, ghost done: Done,
              ghost ix: nat, ghost iy: nat, ghost t: nat)
      returns (lx': nat, ly': nat, ghost end: nat)
    requires Ready(k, c) && |src| == k.s.n * k.s.n && l.Configured() && l.repeat == UNROLL * UNROLL - 1
    requires Stands(k.s, ix, iy, t, lx, ly) && Painted(k.s, c, src, was, dst[..], StepDone(k.s, done, ix, iy, t, RowAt(DealOf(k.s), iy, t)))
    modifies dst, l
    ensures l.Configured() && l.repeat == UNROLL * UNROLL - 1
    ensures Stands(k.s, ix, iy, t + 1, lx', ly')
    ensures Edge(k.s) <= 2 * end && Painted(k.s, c, src, was, dst[..], StepDone(k.s, done, ix, iy, t, end))
  {
    var y := ly;
    lx' := lx;
    end := RowAt(DealOf(k.s), iy, t);
    FirstRow(k.s, ix, iy, t, lx, ly);
    while y < Edge(k.s)
      invariant AtRow(k.s, ix, iy, t, lx', y, end)
      invariant l.Configured() && l.repeat == UNROLL * UNROLL - 1
      invariant Painted(k.s, c, src, was, dst[..], StepDone(k.s, done, ix, iy, t, end))
    {
      NextRow(k.s, ix, iy, t, lx', y, end);
      lx' := StepRow(src, dst, k, l, y, lx', c, was, done, ix, iy, t, end);
      y := y + k.s.py * UNROLL;
      end := end + k.s.py;
    }
    LastRow(k.s, ix, iy, t, lx', ly, y, end);
    ly' := Rotate(ly, k.s.py);
  }
}
