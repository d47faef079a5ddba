/** The plain star stencil: every core takes the rows and columns that are congruent to its indices. */
module StencilPlain {
  import opened Arithmetic
  import opened Rotation
  import opened Stencil

  /** `done`, and of row y0 the columns before x0 of a core with index ix. */
  function RowDone(s: Shape, done: Done, y0: nat, ix: nat, x0: nat): Done
    requires s.px > 0
  {
    (y: nat, x: nat) => done(y, x) || (Inner(s, y, x) && y == y0 && x < x0 && Place(x - s.r, s.px) == ix)
  }

  /** `done`, and the rows before y0 of core (ix, iy). */
  function CoreDone(s: Shape, done: Done, ix: nat, iy: nat, y0: nat): Done
    requires s.px > 0 && s.py > 0
  {
    (y: nat, x: nat) => done(y, x) || (Inner(s, y, x) && y < y0 && Place(y - s.r, s.py) == iy && Place(x - s.r, s.px) == ix)
  }

  /** The points of the cores in `seen`. */
  function CoresDone(s: Shape, seen: seq<nat>): Done
    requires s.px > 0 && s.py > 0
  {
    (y: nat, x: nat) => Inner(s, y, x) && Number(Deal(s.px, s.py, 0), Place(x - s.r, s.px), Place(y - s.r, s.py)) in seen
  }

  method Load(src: seq<real>, n: nat, y: nat, x: nat) returns (v: real)
    requires |src| == n * n && y < n && x < n
    ensures v == Get(src, At(n, y, x))
  {
    AtInside(n, y, x);
    v := src[At(n, y, x)];
  }

  /** The accumulator of one point (lines 105 to 112). */
  method Accumulate(src: seq<real>, s: Shape, c: Coefs, y: nat, x: nat) returns (acc: real)
    requires Fit(c, s.r) && |src| == s.n * s.n && Inner(s, y, x)
    ensures acc == Star(c, src, s.n, y, x, s.r)
  {
    var centre := Load(src, s.n, y, x);
    acc := c.cc * centre;
    for dr := 0 to s.r
      invariant acc == Star(c, src, s.n, y, x, dr)
    {
      acc := Arms4(src, s, c, y, x, dr, acc);
    }
  }

  /** The four arms at distance dr + 1. */
  method Arms4(src: seq<real>, s: Shape, c: Coefs, y: nat, x: nat, dr: nat, acc: real) returns (r: real)
    requires Fit(c, s.r) && |src| == s.n * s.n && Inner(s, y, x) && dr < s.r && acc == Star(c, src, s.n, y, x, dr)
    ensures r == Star(c, src, s.n, y, x, dr + 1)
  {
    var left, right, below, above := Loads(src, s, y, x, dr + 1);
    r := Fma4(c, dr, acc, left, right, below, above);
  }

  method Loads(src: seq<real>, s: Shape, y: nat, x: nat, j: nat) returns (left: real, right: real, below: real, above: real)
    requires |src| == s.n * s.n && Inner(s, y, x) && j <= s.r
    ensures left == Get(src, At(s.n, y, x - j)) && right == Get(src, At(s.n, y, x + j))
    ensures below == Get(src, At(s.n, y - j, x)) && above == Get(src, At(s.n, y + j, x))
  {
    left := Load(src, s.n, y, x - j);
    right := Load(src, s.n, y, x + j);
    below := Load(src, s.n, y - j, x);
    above := Load(src, s.n, y + j, x);
  }

  method Fma4(c: Coefs, dr: nat, acc: real, left: real, right: real, below: real, above: real) returns (r: real)
    requires Fit(c, |c.ym|) && dr < |c.ym|
    ensures r == acc + Cross(c, dr + 1, left, right, below, above)
  {
    r := acc + c.xm[dr] * left;
    r := r + c.xp[dr] * right;
    r := r + c.ym[dr] * below;
    r := r + c.yp[dr] * above;
  }

  method Draw(src: seq<real>, dst: array<real>, s: Shape, c: Coefs, y: nat, x: nat, ghost was: seq<real>, ghost done: Done)
    requires Fit(c, s.r) && |src| == s.n * s.n && Inner(s, y, x) && Painted(s, c, src, was, dst[..], done)
    modifies dst
    ensures Painted(s, c, src, was, dst[..], Plus(done, y, x))
  {
    var acc := Accumulate(src, s, c, y, x);
    AtInside(s.n, y, x);
    ghost var now := dst[..];
    dst[At(s.n, y, x)] := acc;
    PaintOne(s, c, src, was, now, done, y, x, acc, dst[..]);
  }

  lemma NextPoint(s: Shape, c: Coefs, src: seq<real>, was: seq<real>, now: seq<real>, done: Done, y: nat, ix: nat, x: nat)
    requires s.px > 0 && Fit(c, s.r) && Inner(s, y, x) && Place(x - s.r, s.px) == ix
    requires Painted(s, c, src, was, now, Plus(RowDone(s, done, y, ix, x), y, x))
    ensures Painted(s, c, src, was, now, RowDone(s, done, y, ix, x + s.px))
  {
    var f, g := Plus(RowDone(s, done, y, ix, x), y, x), RowDone(s, done, y, ix, x + s.px);
    forall v: nat, u: nat | v < s.n && u < s.n ensures f(v, u) == g(v, u) {
      if v == y && Inner(s, v, u) && x <= u < x + s.px && Place(u - s.r, s.px) == ix {
        NoneBetween(x - s.r, s.px, u - s.r);
      }
    }
    Repaint(s, c, src, was, now, f, g);
  }

  /** The loop over x. */
  method Row(src: seq<real>, dst: array<real>, s: Shape, c: Coefs, y: nat, ix: nat, ghost was: seq<real>, ghost done: Done) returns (ghost end: nat)
    requires s.px > 0 && ix < s.px && Fit(c, s.r) && |src| == s.n * s.n && s.r <= y < s.n - s.r
    requires Painted(s, c, src, was, dst[..], RowDone(s, done, y, ix, ix + s.r))
    modifies dst
    ensures end >= s.n - s.r && Painted(s, c, src, was, dst[..], RowDone(s, done, y, ix, end))
  {
    var x := ix + s.r;
    while x < s.n - s.r
      invariant x >= s.r && Place(x - s.r, s.px) == ix
      invariant Painted(s, c, src, was, dst[..], RowDone(s, done, y, ix, x))
    {
      Draw(src, dst, s, c, y, x, was, RowDone(s, done, y, ix, x));
      NextPoint(s, c, src, was, dst[..], done, y, ix, x);
      x := x + s.px;
    }
    end := x;
  }

  lemma FreshRow(s: Shape, c: Coefs, src: seq<real>, was: seq<real>, now: seq<real>, done: Done, y: nat, ix: nat)
    requires s.px > 0 && ix < s.px && Fit(c, s.r) && Painted(s, c, src, was, now, done)
    ensures Painted(s, c, src, was, now, RowDone(s, done, y, ix, ix + s.r))
  {
    Repaint(s, c, src, was, now, done, RowDone(s, done, y, ix, ix + s.r));
  }

  lemma NextRow(s: Shape, c: Coefs, src: seq<real>, was: seq<real>, now: seq<real>, done: Done, ix: nat, iy: nat, y: nat, end: nat)
    requires s.px > 0 && s.py > 0 && Fit(c, s.r) && s.r <= y && Place(y - s.r, s.py) == iy && end >= s.n - s.r
    requires Painted(s, c, src, was, now, RowDone(s, CoreDone(s, done, ix, iy, y), y, ix, end))
    ensures Painted(s, c, src, was, now, CoreDone(s, done, ix, iy, y + s.py))
  {
    var f, g := RowDone(s, CoreDone(s, done, ix, iy, y), y, ix, end), CoreDone(s, done, ix, iy, y + s.py);
    forall v: nat, u: nat | v < s.n && u < s.n ensures f(v, u) == g(v, u) {
      if Inner(s, v, u) && y <= v < y + s.py && Place(v - s.r, s.py) == iy {
        NoneBetween(y - s.r, s.py, v - s.r);
      }
      assert CoreDone(s, done, ix, iy, y)(v, u)
          == (done(v, u) || (Inner(s, v, u) && v < y && Place(v - s.r, s.py) == iy && Place(u - s.r, s.px) == ix));
    }
    Repaint(s, c, src, was, now, f, g);
  }

  /** One step of core (ix, iy) (lines 102 to 115). */
  method Core(src: seq<real>, dst: array<real>, s: Shape, c: Coefs, ix: nat, iy: nat, ghost was: seq<real>, ghost done: Done) returns (ghost end: nat)
    requires ix < s.px && iy < s.py && Fit(c, s.r) && |src| == s.n * s.n
    requires Painted(s, c, src, was, dst[..], CoreDone(s, done, ix, iy, iy + s.r))
    modifies dst
    ensures end >= s.n - s.r && Painted(s, c, src, was, dst[..], CoreDone(s, done, ix, iy, end))
  {
    var y := iy + s.r;
    while y < s.n - s.r
      invariant y >= s.r && Place(y - s.r, s.py) == iy
      invariant Painted(s, c, src, was, dst[..], CoreDone(s, done, ix, iy, y))
    {
      FreshRow(s, c, src, was, dst[..], CoreDone(s, done, ix, iy, y), y, ix);
      ghost var stop := Row(src, dst, s, c, y, ix, was, CoreDone(s, done, ix, iy, y));
      NextRow(s, c, src, was, dst[..], done, ix, iy, y, stop);
      y := y + s.py;
    }
    end := y;
  }

  lemma FreshCore(s: Shape, c: Coefs, src: seq<real>, was: seq<real>, now: seq<real>, done: Done, ix: nat, iy: nat)
    requires ix < s.px && iy < s.py && Fit(c, s.r) && Painted(s, c, src, was, now, done)
    ensures Painted(s, c, src, was, now, CoreDone(s, done, ix, iy, iy + s.r))
  {
    Repaint(s, c, src, was, now, done, CoreDone(s, done, ix, iy, iy + s.r));
  }

  lemma NextCore(s: Shape, c: Coefs, src: seq<real>, was: seq<real>, now: seq<real>, seen: seq<nat>, cid: nat, ix: nat, iy: nat, end: nat)
    requires s.px > 0 && s.py > 0 && Fit(c, s.r) && cid < s.px * s.py && end >= s.n - s.r
    requires ix == Rem(cid, s.px) && iy == Rem(Quot(cid, s.px), s.py)
    requires Painted(s, c, src, was, now, CoreDone(s, CoresDone(s, seen), ix, iy, end))
    ensures Painted(s, c, src, was, now, CoresDone(s, seen + [cid]))
  {
    var f, g := CoreDone(s, CoresDone(s, seen), ix, iy, end), CoresDone(s, seen + [cid]);
    forall y: nat, x: nat | y < s.n && x < s.n ensures f(y, x) == g(y, x) {
      CorePoint(s, seen, cid, ix, iy, end, y, x);
    }
    Repaint(s, c, src, was, now, f, g);
  }

  lemma CorePoint(s: Shape, seen: seq<nat>, cid: nat, ix: nat, iy: nat, end: nat, y: nat, x: nat)
    requires s.px > 0 && s.py > 0 && cid < s.px * s.py && end >= s.n - s.r
    requires ix == Rem(cid, s.px) && iy == Rem(Quot(cid, s.px), s.py)
    ensures CoreDone(s, CoresDone(s, seen), ix, iy, end)(y, x) == CoresDone(s, seen + [cid])(y, x)
  {
    if Inner(s, y, x) {
      var d, a, b := Deal(s.px, s.py, 0), Place(x - s.r, s.px), Place(y - s.r, s.py);
      Numbered(d, cid, a, b);
      assert CoresDone(s, seen)(y, x) == (Number(d, a, b) in seen);
      assert CoresDone(s, seen + [cid])(y, x) == (Number(d, a, b) in seen || Number(d, a, b) == cid);
    }
  }

  /** One time step of the plain kernel, whatever the order of the cores: it is the specification. */
  method TimeStep(src: array<real>, dst: array<real>, s: Shape, c: Coefs, order: seq<nat>)
    requires s.n > 0 && s.px > 0 && s.py > 0 && Fit(c, s.r) && src != dst && src.Length == dst.Length == s.n * s.n
    requires (forall i :: 0 <= i < |order| ==> order[i] < s.px * s.py) && forall cid: nat :: cid < s.px * s.py ==> cid in order
    modifies dst
    ensures dst[..] == Stepped(s, c, src[..], old(dst[..]))
  {
    ghost var was := dst[..];
    var from := src[..];
    assert Painted(s, c, from, was, was, CoresDone(s, []));
    for i := 0 to |order|
      invariant Painted(s, c, from, was, dst[..], CoresDone(s, order[..i]))
    {
      var cid := order[i];
      var ix, iy := cid % s.px, (cid / s.px) % s.py;
      assert ix == Rem(cid, s.px) && iy == Rem(Quot(cid, s.px), s.py);
      FreshCore(s, c, from, was, dst[..], CoresDone(s, order[..i]), ix, iy);
      ghost var end := Core(from, dst, s, c, ix, iy, was, CoresDone(s, order[..i]));
      NextCore(s, c, from, was, dst[..], order[..i], cid, ix, iy, end);
      assert order[..i + 1] == order[..i] + [cid];
    }
    assert order[..|order|] == order;
    AllCores(s, c, from, was, dst[..], order);
  }

  lemma AllCores(s: Shape, c: Coefs, src: seq<real>, was: seq<real>, now: seq<real>, order: seq<nat>)
    requires s.n > 0 && s.px > 0 && s.py > 0 && Fit(c, s.r) && Painted(s, c, src, was, now, CoresDone(s, order))
    requires forall cid: nat :: cid < s.px * s.py ==> cid in order
    ensures now == Stepped(s, c, src, was)
  {
    var f := CoresDone(s, order);
    forall y: nat, x: nat | y < s.n && x < s.n ensures f(y, x) == Inner(s, y, x) {
      if Inner(s, y, x) {
        assert 0 < s.px * s.py by { MulFar(s.px, s.py); }
        Numbered(Deal(s.px, s.py, 0), 0, Place(x - s.r, s.px), Place(y - s.r, s.py));
      }
    }
    PaintedAll(s, c, src, was, now, f);
  }
}
