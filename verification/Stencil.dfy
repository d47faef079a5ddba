/** The star stencil on a square grid: the plain kernel, and the kernel that gathers its operands through index streams,
    draws two by two points at a time and rotates the columns and rows of every core as it goes. Arithmetic is exact. */
module Stencil {
  import opened Arithmetic
  import opened Rotation

  /** Grid width, radius, and the cores along x and along y. */
  datatype Shape = Shape(n: nat, r: nat, px: nat, py: nat)

  /** Both unrolls are 2 and have to divide the grid (a static assertion) and the cores along their axis. */
  predicate Legal(s: Shape) {
    && 0 < s.n && s.n % 2 == 0 && s.r >= 1 && Axis(s.px) && Axis(s.py) && s.n < 0x1_0000 && s.px < 0x4000_0000 && s.py < 0x4000_0000
  }

  /** The index tables hold 16-bit numbers. */
  predicate Narrow(s: Shape) { (2 * s.r + 1) * s.n + s.r + 1 < 0x1_0000 }

  /** The coefficients: the centre, and one per distance for each arm. */
  datatype Coefs = Coefs(cc: real, ym: seq<real>, xm: seq<real>, xp: seq<real>, yp: seq<real>)

  predicate Fit(c: Coefs, r: nat) { |c.ym| == |c.xm| == |c.xp| == |c.yp| == r }

  /** The place of a point in a grid stored by rows. */
  function At(n: nat, y: int, x: int): int { y * n + x }

  function Get(g: seq<real>, p: int): real { if 0 <= p < |g| then g[p] else 0.0 }

  predicate Inner(s: Shape, y: nat, x: nat) { s.r <= y < s.n - s.r && s.r <= x < s.n - s.r }

  // ----- the plain stencil

  /** The accumulator of the plain kernel after the centre and j distances (lines 105 to 112 of istc.par.hpp). */
  function Star(c: Coefs, g: seq<real>, n: nat, y: int, x: int, j: nat): real
    requires Fit(c, |c.ym|) && j <= |c.ym|
  {
    if j == 0 then c.cc * Get(g, At(n, y, x))
    else Star(c, g, n, y, x, j - 1)
         + Cross(c, j, Get(g, At(n, y, x - j)), Get(g, At(n, y, x + j)), Get(g, At(n, y - j, x)), Get(g, At(n, y + j, x)))
  }

  /** What the four points at distance j add. */
  function Cross(c: Coefs, j: nat, left: real, right: real, below: real, above: real): real
    requires Fit(c, |c.ym|) && 0 < j <= |c.ym|
  {
    c.xm[j - 1] * left + c.xp[j - 1] * right + c.ym[j - 1] * below + c.yp[j - 1] * above
  }

  /** What one time step leaves in the target grid. */
  function Stepped(s: Shape, c: Coefs, src: seq<real>, dst: seq<real>): (r: seq<real>)
    requires s.n > 0 && Fit(c, s.r)
    ensures |r| == s.n * s.n
  {
    seq(s.n * s.n, p requires p >= 0 => Point(s, c, src, dst, p))
  }

  function Point(s: Shape, c: Coefs, src: seq<real>, dst: seq<real>, p: nat): real
    requires s.n > 0 && Fit(c, s.r)
  {
    var (y, x) := (Quot(p, s.n), Rem(p, s.n));
    if Inner(s, y, x) then Star(c, src, s.n, y, x, s.r) else Get(dst, p)
  }

  /** The two grids after t steps, source first. */
  function After(s: Shape, c: Coefs, a: seq<real>, b: seq<real>, t: nat): (seq<real>, seq<real>)
    requires s.n > 0 && Fit(c, s.r)
  {
    if t == 0 then (a, b) else var (g, h) := After(s, c, a, b, t - 1); (Stepped(s, c, g, h), g)
  }

  // ----- index and coefficient tables

  function Centre(s: Shape): nat { s.r * s.n + s.r }

  /** The places of the stencil's points relative to its corner, in the order of the tables. */
  function Places(s: Shape, j: nat): (p: seq<int>)
    ensures |p| == 1 + 4 * j
  {
    if j == 0 then [Centre(s)]
    else Places(s, j - 1) + Arms(Centre(s), s.n, j)
  }

  /** The four points at distance j from place p: below, left, right and above. */
  function Arms(p: int, n: nat, j: nat): (a: seq<int>)
    ensures |a| == 4
  {
    [p - j * n, p - j, p + j, p + j * n]
  }

  function Values(c: Coefs, j: nat): (v: seq<real>)
    requires Fit(c, |c.ym|) && j <= |c.ym|
    ensures |v| == 1 + 4 * j
  {
    if j == 0 then [c.cc] else Values(c, j - 1) + Weights(c, j)
  }

  function Weights(c: Coefs, j: nat): (a: seq<real>)
    requires Fit(c, |c.ym|) && 0 < j <= |c.ym|
    ensures |a| == 4
  {
    [c.ym[j - 1], c.xm[j - 1], c.xp[j - 1], c.yp[j - 1]]
  }

  /** Every place twice, moved by a and by b. */
  function Pairs(p: seq<int>, a: nat, b: nat): (q: seq<int>)
    ensures |q| == 2 * |p|
  {
    if p == [] then [] else Pairs(p[..|p| - 1], a, b) + [p[|p| - 1] + a, p[|p| - 1] + b]
  }

  lemma {:induction false} PairsAt(p: seq<int>, a: nat, b: nat, k: nat)
    requires k < |p|
    ensures Pairs(p, a, b)[2 * k] == p[k] + a && Pairs(p, a, b)[2 * k + 1] == p[k] + b
    decreases |p|
  {
    if k >= |p| - 1 {
    } else {
      PairsAt(p[..|p| - 1], a, b, k);
    }
  }

  lemma {:induction false} PairsFour(p: seq<int>, w: int, x: int, y: int, z: int, a: nat, b: nat)
    ensures Pairs(p + [w, x, y, z], a, b) == Pairs(p, a, b) + [w + a, w + b, x + a, x + b, y + a, y + b, z + a, z + b]
  {
    PairsOne(p, w, a, b);
    PairsOne(p + [w], x, a, b);
    PairsOne(p + [w] + [x], y, a, b);
    PairsOne(p + [w] + [x] + [y], z, a, b);
    assert p + [w] + [x] + [y] + [z] == p + [w, x, y, z];
  }

  lemma {:induction false} PairsOne(p: seq<int>, w: int, a: nat, b: nat)
    ensures Pairs(p + [w], a, b) == Pairs(p, a, b) + [w + a, w + b]
  {
    assert (p + [w])[..|p|] == p;
  }

  /** Conversion to the 16-bit index type. */
  function Short(x: int): int { x % 0x1_0000 }

  /** Every place twice, as the pointers move through a table. */
  function Entries(a: seq<int>, u: nat, v: nat): seq<int>
    requires |a| == 4
  {
    [Short(a[0] + u), Short(a[0] + v), Short(a[1] + u), Short(a[1] + v), Short(a[2] + u), Short(a[2] + v), Short(a[3] + u), Short(a[3] + v)]
  }

  /** A table entry that fits its type is stored as it is. */
  predicate Fits(p: int, n: nat) { 0 <= p && p + n + 1 < 0x1_0000 }

  lemma EntriesFit(a: seq<int>, n: nat, p: seq<int>, u: nat, v: nat)
    requires |a| == 4 && Fits(a[0], n) && Fits(a[1], n) && Fits(a[2], n) && Fits(a[3], n) && u <= n + 1 && v <= n + 1
    ensures Pairs(p + a, u, v) == Pairs(p, u, v) + Entries(a, u, v)
  {
    PairsFour(p, a[0], a[1], a[2], a[3], u, v);
    assert a == [a[0], a[1], a[2], a[3]];
    EntriesPlain(a, n, u, v);
  }

  lemma EntriesPlain(a: seq<int>, n: nat, u: nat, v: nat)
    requires |a| == 4 && Fits(a[0], n) && Fits(a[1], n) && Fits(a[2], n) && Fits(a[3], n) && u <= n + 1 && v <= n + 1
    ensures Entries(a, u, v) == [a[0] + u, a[0] + v, a[1] + u, a[1] + v, a[2] + u, a[2] + v, a[3] + u, a[3] + v]
  {
    ShortSame(a[0], n, u);
    ShortSame(a[0], n, v);
    ShortSame(a[1], n, u);
    ShortSame(a[1], n, v);
    ShortSame(a[2], n, u);
    ShortSame(a[2], n, v);
    ShortSame(a[3], n, u);
    ShortSame(a[3], n, v);
  }

  lemma ShortSame(p: int, n: nat, u: nat)
    requires Fits(p, n) && u <= n + 1
    ensures Short(p + u) == p + u
  {}

  lemma TablesStart(cc: int, n: nat, p: seq<int>)
    requires Fits(cc, n) && p == [cc]
    ensures [Short(cc), Short(cc + n)] == Pairs(p, 0, n) && [Short(cc + 1), Short(cc + n + 1)] == Pairs(p, 1, n + 1)
  {
    PairsOne([], cc, 0, n);
    PairsOne([], cc, 1, n + 1);
    assert [] + [cc] == [cc];
  }

  /** The step of the tables from distance j to j + 1. */
  lemma TablesStep(s: Shape, j: nat)
    requires 0 < s.n && Narrow(s) && j < s.r
    ensures var a := Arms(Centre(s), s.n, j + 1);
            && Pairs(Places(s, j + 1), 0, s.n) == Pairs(Places(s, j), 0, s.n) + Entries(a, 0, s.n)
            && Pairs(Places(s, j + 1), 1, s.n + 1) == Pairs(Places(s, j), 1, s.n + 1) + Entries(a, 1, s.n + 1)
  {
    ArmsFit(s, j + 1);
    EntriesFit(Arms(Centre(s), s.n, j + 1), s.n, Places(s, j), 0, s.n);
    EntriesFit(Arms(Centre(s), s.n, j + 1), s.n, Places(s, j), 1, s.n + 1);
  }

  /** Fills the two index tables (lines 421 to 433). */
  method Tables(s: Shape) returns (i0: seq<int>, i1: seq<int>)
    requires 0 < s.n && Narrow(s)
    ensures i0 == Pairs(Places(s, s.r), 0, s.n) && i1 == Pairs(Places(s, s.r), 1, s.n + 1)
  {
    var cc := Centre(s);
    i0, i1 := [Short(cc), Short(cc + s.n)], [Short(cc + 1), Short(cc + s.n + 1)];
    PlacesFit(s, 0, 0);
    TablesStart(cc, s.n, Places(s, 0));
    for j := 0 to s.r
      invariant i0 == Pairs(Places(s, j), 0, s.n) && i1 == Pairs(Places(s, j), 1, s.n + 1)
    {
      TablesStep(s, j);
      i0 := i0 + Entries(Arms(cc, s.n, j + 1), 0, s.n);
      i1 := i1 + Entries(Arms(cc, s.n, j + 1), 1, s.n + 1);
    }
  }

  /** Fills the coefficient table (lines 437 to 444). */
  method Buffer(c: Coefs, r: nat) returns (ca: seq<real>)
    requires Fit(c, r)
    ensures ca == Values(c, r) && ca[0] == c.cc
    ensures forall j :: 0 <= j < r ==> ca[1 + 4 * j] == c.ym[j] && ca[2 + 4 * j] == c.xm[j] && ca[3 + 4 * j] == c.xp[j] && ca[4 + 4 * j] == c.yp[j]
  {
    ca := [c.cc];
    for j := 0 to r
      invariant ca == Values(c, j) && ca[0] == c.cc
      invariant forall i :: 0 <= i < j ==> ca[1 + 4 * i] == c.ym[i] && ca[2 + 4 * i] == c.xm[i] && ca[3 + 4 * i] == c.xp[i] && ca[4 + 4 * i] == c.yp[i]
    {
      ca := ca + [c.ym[j], c.xm[j], c.xp[j], c.yp[j]];
    }
  }

  /** The table entries fit their type. */
  lemma {:induction false} PlacesFit(s: Shape, j: nat, k: nat)
    requires 0 < s.n && Narrow(s) && j <= s.r && k < |Places(s, j)|
    ensures Fits(Places(s, j)[k], s.n)
  {
    if j > 0 && k < |Places(s, j - 1)| {
      PlacesFit(s, j - 1, k);
    } else if j > 0 {
      ArmsFit(s, j);
      assert Places(s, j)[k] == Arms(Centre(s), s.n, j)[k - |Places(s, j - 1)|];
    } else {
      ArmsFit(s, 0);
      assert Arms(Centre(s), s.n, 0)[1] == Centre(s);
    }
  }

  lemma ArmsFit(s: Shape, j: nat)
    requires 0 < s.n && Narrow(s) && j <= s.r
    ensures forall i :: 0 <= i < 4 ==> Fits(Arms(Centre(s), s.n, j)[i], s.n)
  {
    MulMono(j, s.r, s.n);
    MulMono(1, s.n, s.r);
    assert s.n * s.r == s.r * s.n;
    assert (2 * s.r + 1) * s.n == 2 * (s.r * s.n) + s.n;
  }

  lemma MulMono(a: nat, b: nat, n: nat)
    requires a <= b
    ensures 0 <= a * n <= b * n
  {}

  // ----- the gathered sum

  /** The sum of value * operand, in the order of the tables, of a stencil with its corner at base. */
  function Fold(g: seq<real>, v: seq<real>, p: seq<int>, base: int): real
    requires |v| == |p|
    decreases |p|
  {
    if p == [] then 0.0
    else Fold(g, v[..|v| - 1], p[..|p| - 1], base) + v[|v| - 1] * Get(g, base + p[|p| - 1])
  }

  lemma {:induction false} FoldOne(g: seq<real>, v: seq<real>, p: seq<int>, base: int, a: real, q: int)
    requires |v| == |p|
    ensures Fold(g, v + [a], p + [q], base) == Fold(g, v, p, base) + a * Get(g, base + q)
  {
    assert (v + [a])[..|v|] == v && (p + [q])[..|p|] == p;
  }

  function Sum4(g: seq<real>, w: seq<real>, a: seq<int>, base: int): real
    requires |w| == |a| == 4
  {
    w[0] * Get(g, base + a[0]) + w[1] * Get(g, base + a[1]) + w[2] * Get(g, base + a[2]) + w[3] * Get(g, base + a[3])
  }

  lemma {:induction false} FoldFour(g: seq<real>, v: seq<real>, p: seq<int>, base: int, w: seq<real>, a: seq<int>)
    requires |v| == |p| && |w| == |a| == 4
    ensures Fold(g, v + w, p + a, base) == Fold(g, v, p, base) + Sum4(g, w, a, base)
  {
    var (v1, p1) := (v + [w[0]], p + [a[0]]);
    var (v2, p2) := (v1 + [w[1]], p1 + [a[1]]);
    var (v3, p3) := (v2 + [w[2]], p2 + [a[2]]);
    FoldOne(g, v, p, base, w[0], a[0]);
    FoldOne(g, v1, p1, base, w[1], a[1]);
    FoldOne(g, v2, p2, base, w[2], a[2]);
    FoldOne(g, v3, p3, base, w[3], a[3]);
    assert v3 + [w[3]] == v + w && p3 + [a[3]] == p + a;
  }

  /** The gathered sum with its corner r rows up and r columns left of (y, x) is the stencil at (y, x). */
  lemma FoldIsStar(s: Shape, c: Coefs, g: seq<real>, y: int, x: int, j: nat)
    requires Fit(c, s.r) && j <= s.r
    ensures Fold(g, Values(c, j), Places(s, j), At(s.n, y - s.r, x - s.r)) == Star(c, g, s.n, y, x, j)
  {
    CornerAt(s, y, x);
    FoldFrom(s, c, g, y, x, At(s.n, y - s.r, x - s.r), Centre(s), j);
  }

  lemma {:induction false} FoldFrom(s: Shape, c: Coefs, g: seq<real>, y: int, x: int, base: int, centre: nat, j: nat)
    requires Fit(c, s.r) && j <= s.r && centre == Centre(s) && base + centre == At(s.n, y, x)
    ensures Fold(g, Values(c, j), Places(s, j), base) == Star(c, g, s.n, y, x, j)
  {
    if j == 0 {
      FoldCentre(s, c, g, y, x, base, centre);
    } else {
      FoldFrom(s, c, g, y, x, base, centre, j - 1);
      FoldFour(g, Values(c, j - 1), Places(s, j - 1), base, Weights(c, j), Arms(centre, s.n, j));
      StarStep(c, g, s.n, y, x, j, base, centre);
    }
  }

  lemma FoldCentre(s: Shape, c: Coefs, g: seq<real>, y: int, x: int, base: int, centre: nat)
    requires Fit(c, s.r) && centre == Centre(s) && base + centre == At(s.n, y, x)
    ensures Fold(g, Values(c, 0), Places(s, 0), base) == Star(c, g, s.n, y, x, 0)
  {
    FoldOne(g, [], [], base, c.cc, centre);
    assert [] + [c.cc] == [c.cc] && [] + [centre] == [centre];
  }

  lemma {:induction false} StarStep(c: Coefs, g: seq<real>, n: nat, y: int, x: int, j: nat, base: int, p: int)
    requires Fit(c, |c.ym|) && 0 < j <= |c.ym| && base + p == At(n, y, x)
    ensures Star(c, g, n, y, x, j) == Star(c, g, n, y, x, j - 1) + Sum4(g, Weights(c, j), Arms(p, n, j), base)
  {
    ArmsAt(base, p, n, y, x, j);
    SumIsMix(g, Weights(c, j), Arms(p, n, j), base, At(n, y - j, x), At(n, y, x - j), At(n, y, x + j), At(n, y + j, x));
    CrossIsMix(c, j, Get(g, At(n, y - j, x)), Get(g, At(n, y, x - j)), Get(g, At(n, y, x + j)), Get(g, At(n, y + j, x)));
  }

  function Mix(w: seq<real>, below: real, left: real, right: real, above: real): real
    requires |w| == 4
  {
    w[0] * below + w[1] * left + w[2] * right + w[3] * above
  }

  lemma SumIsMix(g: seq<real>, w: seq<real>, a: seq<int>, base: int, below: int, left: int, right: int, above: int)
    requires |w| == |a| == 4 && base + a[0] == below && base + a[1] == left && base + a[2] == right && base + a[3] == above
    ensures Sum4(g, w, a, base) == Mix(w, Get(g, below), Get(g, left), Get(g, right), Get(g, above))
  {}

  lemma CrossIsMix(c: Coefs, j: nat, below: real, left: real, right: real, above: real)
    requires Fit(c, |c.ym|) && 0 < j <= |c.ym|
    ensures Cross(c, j, left, right, below, above) == Mix(Weights(c, j), below, left, right, above)
  {}

  lemma CornerAt(s: Shape, y: int, x: int)
    ensures At(s.n, y - s.r, x - s.r) + Centre(s) == At(s.n, y, x)
  {
    assert (y - s.r) * s.n == y * s.n - s.r * s.n;
  }

  lemma ArmsAt(base: int, p: int, n: nat, y: int, x: int, j: nat)
    requires base + p == At(n, y, x)
    ensures var (a, b) := (Arms(p, n, j), Arms(At(n, y, x), n, j));
            base + a[0] == b[0] && base + a[1] == b[1] && base + a[2] == b[2] && base + a[3] == b[3]
    ensures Arms(At(n, y, x), n, j) == [At(n, y - j, x), At(n, y, x - j), At(n, y, x + j), At(n, y + j, x)]
  {
    assert (y - j) * n == y * n - j * n;
    assert (y + j) * n == y * n + j * n;
  }

  // ----- places in the grid

  lemma AtInside(n: nat, y: nat, x: nat)
    requires y < n && x < n
    ensures 0 <= At(n, y, x) < n * n
  {
    MulMono(y, n - 1, n);
    assert (n - 1) * n == n * n - n;
  }

  lemma AtUnique(n: nat, y: nat, x: nat, y': nat, x': nat)
    requires x < n && x' < n && At(n, y, x) == At(n, y', x')
    ensures y == y' && x == x'
  {
    var e := y - y';
    assert e * n == y * n - y' * n;
    MulFar(e, n);
  }

  /** Everything a stencil around an inner point gathers is in the grid. */
  lemma {:induction false} Gathers(s: Shape, y: nat, x: nat, j: nat, k: nat)
    requires Inner(s, y, x) && j <= s.r && k < |Places(s, j)|
    ensures 0 <= At(s.n, y - s.r, x - s.r) + Places(s, j)[k] < s.n * s.n
  {
    var base := At(s.n, y - s.r, x - s.r);
    if j > 0 && k < |Places(s, j - 1)| {
      Gathers(s, y, x, j - 1, k);
    } else {
      CornerAt(s, y, x);
      if j == 0 {
        AtInside(s.n, y, x);
      } else {
        assert Places(s, j)[k] == Arms(Centre(s), s.n, j)[k - |Places(s, j - 1)|];
        ArmsAt(base, Centre(s), s.n, y, x, j);
        ArmsInside(s, y, x, j);
      }
    }
  }

  lemma ArmsInside(s: Shape, y: nat, x: nat, j: nat)
    requires Inner(s, y, x) && j <= s.r
    ensures 0 <= At(s.n, y - j, x) < s.n * s.n && 0 <= At(s.n, y, x - j) < s.n * s.n
    ensures 0 <= At(s.n, y, x + j) < s.n * s.n && 0 <= At(s.n, y + j, x) < s.n * s.n
  {
    AtInside(s.n, y - j, x);
    AtInside(s.n, y, x - j);
    AtInside(s.n, y, x + j);
    AtInside(s.n, y + j, x);
  }

  // ----- a target grid, partly drawn

  type Done = (nat, nat) -> bool

  /** The points in `done` hold the stencil over src, the others what they held. */
  ghost predicate Painted(s: Shape, c: Coefs, src: seq<real>, was: seq<real>, now: seq<real>, done: Done)
    requires Fit(c, s.r)
  {
    && |was| == |now| == s.n * s.n
    && forall y: nat, x: nat :: y < s.n && x < s.n ==> Shows(s, c, src, was, now, done, y, x)
  }

  ghost predicate Shows(s: Shape, c: Coefs, src: seq<real>, was: seq<real>, now: seq<real>, done: Done, y: nat, x: nat)
    requires Fit(c, s.r)
  {
    Get(now, At(s.n, y, x)) == if done(y, x) then Star(c, src, s.n, y, x, s.r) else Get(was, At(s.n, y, x))
  }

  function Plus(done: Done, y: nat, x: nat): Done { (a: nat, b: nat) => done(a, b) || (a == y && b == x) }

  lemma PaintOne(s: Shape, c: Coefs, src: seq<real>, was: seq<real>, now: seq<real>, done: Done, y: nat, x: nat, v: real, now': seq<real>)
    requires Fit(c, s.r) && Painted(s, c, src, was, now, done) && y < s.n && x < s.n && 0 <= At(s.n, y, x) < |now|
    requires v == Star(c, src, s.n, y, x, s.r) && now' == now[At(s.n, y, x) := v]
    ensures Painted(s, c, src, was, now', Plus(done, y, x))
  {
    forall a: nat, b: nat | a < s.n && b < s.n
      ensures Shows(s, c, src, was, now', Plus(done, y, x), a, b)
    {
      assert Shows(s, c, src, was, now, done, a, b);
      if At(s.n, a, b) == At(s.n, y, x) { AtUnique(s.n, a, b, y, x); }
    }
  }

  lemma Repaint(s: Shape, c: Coefs, src: seq<real>, was: seq<real>, now: seq<real>, done: Done, done': Done)
    requires Fit(c, s.r) && Painted(s, c, src, was, now, done)
    requires forall y: nat, x: nat :: y < s.n && x < s.n ==> done(y, x) == done'(y, x)
    ensures Painted(s, c, src, was, now, done')
  {
    forall y: nat, x: nat | y < s.n && x < s.n
      ensures Shows(s, c, src, was, now, done', y, x)
    {
      assert Shows(s, c, src, was, now, done, y, x);
    }
  }

  lemma AtSplit(n: nat, p: nat)
    requires 0 < n && p < n * n
    ensures Quot(p, n) < n && At(n, Quot(p, n), Rem(p, n)) == p
  {
    var y := Quot(p, n);
    MulFar(y - n, n);
    assert (y - n) * n == y * n - n * n;
  }

  /** Drawing every inner point is one time step. */
  lemma PaintedAll(s: Shape, c: Coefs, src: seq<real>, was: seq<real>, now: seq<real>, done: Done)
    requires s.n > 0 && Fit(c, s.r) && Painted(s, c, src, was, now, done)
    requires forall y: nat, x: nat :: y < s.n && x < s.n ==> done(y, x) == Inner(s, y, x)
    ensures now == Stepped(s, c, src, was)
  {
    forall p: nat | p < s.n * s.n
      ensures now[p] == Point(s, c, src, was, p)
    {
      var y, x := Quot(p, s.n), Rem(p, s.n);
      AtSplit(s.n, p);
      assert Shows(s, c, src, was, now, done, y, x);
    }
  }
}
