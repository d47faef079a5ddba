/** What the stencil computes, in indices and coefficients: the sum at a point written out step by step, the response of a time
    step to a single point, and its linearity, which together determine it. */
module StencilLaw {
  import opened Arithmetic
  import opened Stencil

  // ----- written out

  lemma Place(n: nat, y: nat, x: nat)
    requires y < n && x < n
    ensures y * n + x < n * n && At(n, y, x) == y * n + x && Quot(y * n + x, n) == y && Rem(y * n + x, n) == x
  {
    PairBound(y, x, n, n);
    DivUnique(y * n + x, n, y, x);
  }

  lemma StepAt(s: Shape, c: Coefs, src: seq<real>, dst: seq<real>, y: nat, x: nat)
    requires s.n > 0 && Fit(c, s.r) && s.r <= y < s.n - s.r && s.r <= x < s.n - s.r
    ensures y * s.n + x < s.n * s.n && Stepped(s, c, src, dst)[y * s.n + x] == Star(c, src, s.n, y, x, s.r)
  {
    Place(s.n, y, x);
  }

  /** The new value of an inner point: the centre, then left, right, below and above at every distance. */
  lemma InnerValue(s: Shape, c: Coefs, src: seq<real>, dst: seq<real>, y: nat, x: nat) returns (acc: seq<real>)
    requires s.n > 0 && Fit(c, s.r) && |src| == s.n * s.n && s.r <= y < s.n - s.r && s.r <= x < s.n - s.r
    ensures y * s.n + x < |src| && |acc| == s.r + 1 && Stepped(s, c, src, dst)[y * s.n + x] == acc[s.r]
    ensures acc[0] == c.cc * Value(s, src, y, x)
    ensures forall d: nat :: d < s.r ==>
              acc[d + 1] == acc[d] + (c.xm[d] * Value(s, src, y, x - 1 - d) + c.xp[d] * Value(s, src, y, x + 1 + d)
                                      + c.ym[d] * Value(s, src, y - 1 - d, x) + c.yp[d] * Value(s, src, y + 1 + d, x))
  {
    StepAt(s, c, src, dst, y, x);
    CentreValue(s, c, src, y, x);
    acc := seq(s.r + 1, (d: nat) requires d <= s.r => Star(c, src, s.n, y, x, d));
    forall d: nat | d < s.r
      ensures acc[d + 1] == acc[d] + (c.xm[d] * Value(s, src, y, x - 1 - d) + c.xp[d] * Value(s, src, y, x + 1 + d)
                                      + c.ym[d] * Value(s, src, y - 1 - d, x) + c.yp[d] * Value(s, src, y + 1 + d, x))
    {
      StarNext(s, c, src, y, x, d);
    }
  }

  lemma CentreValue(s: Shape, c: Coefs, src: seq<real>, y: nat, x: nat)
    requires Fit(c, s.r) && |src| == s.n * s.n && y < s.n && x < s.n
    ensures Star(c, src, s.n, y, x, 0) == c.cc * Value(s, src, y, x)
  {
    Place(s.n, y, x);
  }

  lemma StarNext(s: Shape, c: Coefs, src: seq<real>, y: nat, x: nat, d: nat)
    requires Fit(c, s.r) && |src| == s.n * s.n && s.r <= y < s.n - s.r && s.r <= x < s.n - s.r && d < s.r
    ensures Star(c, src, s.n, y, x, d + 1) ==
              Star(c, src, s.n, y, x, d) + (c.xm[d] * Value(s, src, y, x - 1 - d) + c.xp[d] * Value(s, src, y, x + 1 + d)
                                            + c.ym[d] * Value(s, src, y - 1 - d, x) + c.yp[d] * Value(s, src, y + 1 + d, x))
  {
    StarCross(s, c, src, y, x, d);
    CrossIs(c, d, Value(s, src, y, x - 1 - d), Value(s, src, y, x + 1 + d), Value(s, src, y - 1 - d, x), Value(s, src, y + 1 + d, x));
  }

  lemma StarCross(s: Shape, c: Coefs, src: seq<real>, y: nat, x: nat, d: nat)
    requires Fit(c, s.r) && |src| == s.n * s.n && s.r <= y < s.n - s.r && s.r <= x < s.n - s.r && d < s.r
    ensures Star(c, src, s.n, y, x, d + 1) ==
              Star(c, src, s.n, y, x, d) + Cross(c, d + 1, Value(s, src, y, x - 1 - d), Value(s, src, y, x + 1 + d),
                                                 Value(s, src, y - 1 - d, x), Value(s, src, y + 1 + d, x))
  {
    Neighbours(s, src, y, x, d);
  }

  lemma CrossIs(c: Coefs, d: nat, left: real, right: real, below: real, above: real)
    requires Fit(c, |c.ym|) && d < |c.ym|
    ensures Cross(c, d + 1, left, right, below, above) == c.xm[d] * left + c.xp[d] * right + c.ym[d] * below + c.yp[d] * above
  {}

  /** The value stored for row v and column u. */
  function Value(s: Shape, g: seq<real>, v: nat, u: nat): (r: real)
    requires |g| == s.n * s.n && v < s.n && u < s.n
    ensures v * s.n + u < |g| && r == g[v * s.n + u]
  {
    PairBound(v, u, s.n, s.n);
    g[v * s.n + u]
  }

  lemma Neighbours(s: Shape, g: seq<real>, y: nat, x: nat, d: nat)
    requires |g| == s.n * s.n && s.r <= y < s.n - s.r && s.r <= x < s.n - s.r && d < s.r
    ensures Get(g, At(s.n, y, x - (d + 1))) == Value(s, g, y, x - 1 - d) && Get(g, At(s.n, y, x + (d + 1))) == Value(s, g, y, x + 1 + d)
    ensures Get(g, At(s.n, y - (d + 1), x)) == Value(s, g, y - 1 - d, x) && Get(g, At(s.n, y + (d + 1), x)) == Value(s, g, y + 1 + d, x)
  {
    Cell(s, g, y, x - 1 - d);
    Cell(s, g, y, x + 1 + d);
    Cell(s, g, y - 1 - d, x);
    Cell(s, g, y + 1 + d, x);
  }

  lemma Cell(s: Shape, g: seq<real>, v: nat, u: nat)
    requires |g| == s.n * s.n && v < s.n && u < s.n
    ensures Get(g, At(s.n, v, u)) == Value(s, g, v, u)
  {
    Place(s.n, v, u);
  }

  /** The other points keep the value they had in the target grid. */
  lemma BorderValue(s: Shape, c: Coefs, src: seq<real>, dst: seq<real>, y: nat, x: nat)
    requires s.n > 0 && Fit(c, s.r) && |dst| == s.n * s.n && y < s.n && x < s.n
    requires y < s.r || y >= s.n - s.r || x < s.r || x >= s.n - s.r
    ensures y * s.n + x < |dst| && Stepped(s, c, src, dst)[y * s.n + x] == dst[y * s.n + x]
  {
    Place(s.n, y, x);
  }

  /** After any number of steps: every grid comes from the two before it, the last two are what is left. */
  lemma {:induction false} Grids(s: Shape, c: Coefs, a: seq<real>, b: seq<real>, t: nat) returns (grids: seq<seq<real>>)
    requires s.n > 0 && Fit(c, s.r)
    ensures |grids| == t + 2 && grids[0] == b && grids[1] == a && After(s, c, a, b, t) == (grids[t + 1], grids[t])
    ensures forall k: nat :: k < t ==> grids[k + 2] == Stepped(s, c, grids[k + 1], grids[k])
  {
    if t == 0 {
      grids := [b, a];
    } else {
      var g := Grids(s, c, a, b, t - 1);
      grids := g + [Stepped(s, c, g[t], g[t - 1])];
    }
  }

  // ----- the response to one point

  /** The grid that is 1 at (v, u) and 0 elsewhere. */
  ghost predicate Impulse(s: Shape, g: seq<real>, v: nat, u: nat) {
    && |g| == s.n * s.n && v < s.n && u < s.n
    && forall y: nat, x: nat :: y < s.n && x < s.n ==> Value(s, g, y, x) == if y == v && x == u then 1.0 else 0.0
  }

  /** Each coefficient acts on its own arm, at its own distance, and nothing else does. */
  lemma Response(s: Shape, c: Coefs, g: seq<real>, dst: seq<real>, v: nat, u: nat, y: nat, x: nat)
    requires s.n > 0 && Fit(c, s.r) && Impulse(s, g, v, u) && s.r <= y < s.n - s.r && s.r <= x < s.n - s.r
    ensures y * s.n + x < s.n * s.n
    ensures Stepped(s, c, g, dst)[y * s.n + x] ==
              if v == y && u == x then c.cc
              else if v == y && u < x && x - u <= s.r then c.xm[x - u - 1]
              else if v == y && x < u && u - x <= s.r then c.xp[u - x - 1]
              else if u == x && v < y && y - v <= s.r then c.ym[y - v - 1]
              else if u == x && y < v && v - y <= s.r then c.yp[v - y - 1]
              else 0.0
  {
    StepAt(s, c, g, dst, y, x);
    ResponseTo(s, c, g, v, u, y, x, s.r);
  }

  /** With the arms up to distance j. */
  function Answer(c: Coefs, v: nat, u: nat, y: nat, x: nat, j: nat): real
    requires Fit(c, |c.ym|) && j <= |c.ym|
  {
    if v == y && u == x then c.cc
    else if v == y && u < x && x - u <= j then c.xm[x - u - 1]
    else if v == y && x < u && u - x <= j then c.xp[u - x - 1]
    else if u == x && v < y && y - v <= j then c.ym[y - v - 1]
    else if u == x && y < v && v - y <= j then c.yp[v - y - 1]
    else 0.0
  }

  lemma {:induction false} ResponseTo(s: Shape, c: Coefs, g: seq<real>, v: nat, u: nat, y: nat, x: nat, j: nat)
    requires Fit(c, s.r) && Impulse(s, g, v, u) && s.r <= y < s.n - s.r && s.r <= x < s.n - s.r && j <= s.r
    ensures Star(c, g, s.n, y, x, j) == Answer(c, v, u, y, x, j)
  {
    if j == 0 {
      CentreValue(s, c, g, y, x);
    } else {
      ResponseTo(s, c, g, v, u, y, x, j - 1);
      StarCross(s, c, g, y, x, j - 1);
      ArmsTo(s, c, g, v, u, y, x, j);
    }
  }

  lemma ArmsTo(s: Shape, c: Coefs, g: seq<real>, v: nat, u: nat, y: nat, x: nat, j: nat)
    requires Fit(c, s.r) && Impulse(s, g, v, u) && s.r <= y < s.n - s.r && s.r <= x < s.n - s.r && 0 < j <= s.r
    ensures Answer(c, v, u, y, x, j) ==
              Answer(c, v, u, y, x, j - 1) + Cross(c, j, Value(s, g, y, x - 1 - (j - 1)), Value(s, g, y, x + 1 + (j - 1)),
                                                   Value(s, g, y - 1 - (j - 1), x), Value(s, g, y + 1 + (j - 1), x))
  {
    ArmsAnswer(c, v, u, y, x, j, Value(s, g, y, x - j), Value(s, g, y, x + j), Value(s, g, y - j, x), Value(s, g, y + j, x));
  }

  lemma ArmsAnswer(c: Coefs, v: nat, u: nat, y: nat, x: nat, j: nat, left: real, right: real, below: real, above: real)
    requires Fit(c, |c.ym|) && 0 < j <= |c.ym| && j <= y && j <= x
    requires left == (if y == v && x - j == u then 1.0 else 0.0) && right == (if y == v && x + j == u then 1.0 else 0.0)
    requires below == (if y - j == v && x == u then 1.0 else 0.0) && above == (if y + j == v && x == u then 1.0 else 0.0)
    ensures Answer(c, v, u, y, x, j) == Answer(c, v, u, y, x, j - 1) + Cross(c, j, left, right, below, above)
  {}

  // ----- linearity

  /** g is k times e plus h. */
  ghost predicate Combined(g: seq<real>, e: seq<real>, k: real, h: seq<real>) {
    |g| == |e| == |h| && forall p: nat :: p < |g| ==> g[p] == k * e[p] + h[p]
  }

  /** The new values depend linearly on the source grid. */
  lemma StepLinear(s: Shape, c: Coefs, g: seq<real>, e: seq<real>, k: real, h: seq<real>, dst: seq<real>, p: nat)
    requires s.n > 0 && Fit(c, s.r) && Combined(g, e, k, h) && p < s.n * s.n
    requires s.r <= p / s.n < s.n - s.r && s.r <= p % s.n < s.n - s.r
    ensures Stepped(s, c, g, dst)[p] == k * Stepped(s, c, e, dst)[p] + Stepped(s, c, h, dst)[p]
  {
    StepMixed(s, c, g, e, k, h, dst, p);
  }

  lemma StepMixed(s: Shape, c: Coefs, g: seq<real>, e: seq<real>, k: real, h: seq<real>, dst: seq<real>, p: nat)
    requires s.n > 0 && Fit(c, s.r) && Combined(g, e, k, h) && p < s.n * s.n && Inner(s, Quot(p, s.n), Rem(p, s.n))
    ensures Mixed(k, Stepped(s, c, g, dst)[p], Stepped(s, c, e, dst)[p], Stepped(s, c, h, dst)[p])
  {
    StarLinear(c, g, e, k, h, s.n, Quot(p, s.n), Rem(p, s.n), s.r);
    StarAt(s, c, g, dst, p);
    StarAt(s, c, e, dst, p);
    StarAt(s, c, h, dst, p);
  }

  lemma StarAt(s: Shape, c: Coefs, g: seq<real>, dst: seq<real>, p: nat)
    requires s.n > 0 && Fit(c, s.r) && p < s.n * s.n && Inner(s, Quot(p, s.n), Rem(p, s.n))
    ensures Stepped(s, c, g, dst)[p] == Star(c, g, s.n, Quot(p, s.n), Rem(p, s.n), s.r)
  {}

  predicate Mixed(k: real, g: real, e: real, h: real) { g == k * e + h }

  lemma {:induction false} StarLinear(c: Coefs, g: seq<real>, e: seq<real>, k: real, h: seq<real>, n: nat, y: int, x: int, j: nat)
    requires Fit(c, |c.ym|) && j <= |c.ym| && Combined(g, e, k, h)
    ensures Mixed(k, Star(c, g, n, y, x, j), Star(c, e, n, y, x, j), Star(c, h, n, y, x, j))
  {
    if j == 0 {
      CentreLinear(c.cc, g, e, k, h, At(n, y, x));
    } else {
      StarLinear(c, g, e, k, h, n, y, x, j - 1);
      ArmsLinear(c, j, g, e, k, h, At(n, y, x - j), At(n, y, x + j), At(n, y - j, x), At(n, y + j, x));
      Together(k, Star(c, g, n, y, x, j - 1), Star(c, e, n, y, x, j - 1), Star(c, h, n, y, x, j - 1),
               Arms4(c, j, g, At(n, y, x - j), At(n, y, x + j), At(n, y - j, x), At(n, y + j, x)),
               Arms4(c, j, e, At(n, y, x - j), At(n, y, x + j), At(n, y - j, x), At(n, y + j, x)),
               Arms4(c, j, h, At(n, y, x - j), At(n, y, x + j), At(n, y - j, x), At(n, y + j, x)));
    }
  }

  function Arms4(c: Coefs, j: nat, g: seq<real>, l: int, r: int, d: int, t: int): real
    requires Fit(c, |c.ym|) && 0 < j <= |c.ym|
  {
    Cross(c, j, Get(g, l), Get(g, r), Get(g, d), Get(g, t))
  }

  lemma CentreLinear(cc: real, g: seq<real>, e: seq<real>, k: real, h: seq<real>, p: int)
    requires Combined(g, e, k, h)
    ensures Mixed(k, cc * Get(g, p), cc * Get(e, p), cc * Get(h, p))
  {
    GetLinear(g, e, k, h, p);
    Linear(cc, Get(e, p), k, Get(h, p));
  }

  lemma ArmsLinear(c: Coefs, j: nat, g: seq<real>, e: seq<real>, k: real, h: seq<real>, l: int, r: int, d: int, t: int)
    requires Fit(c, |c.ym|) && 0 < j <= |c.ym| && Combined(g, e, k, h)
    ensures Mixed(k, Arms4(c, j, g, l, r, d, t), Arms4(c, j, e, l, r, d, t), Arms4(c, j, h, l, r, d, t))
  {
    GetLinear(g, e, k, h, l);
    GetLinear(g, e, k, h, r);
    GetLinear(g, e, k, h, d);
    GetLinear(g, e, k, h, t);
    CrossLinear(c, j, k, Get(e, l), Get(e, r), Get(e, d), Get(e, t), Get(h, l), Get(h, r), Get(h, d), Get(h, t));
  }

  lemma Together(k: real, g: real, e: real, h: real, g': real, e': real, h': real)
    requires Mixed(k, g, e, h) && Mixed(k, g', e', h')
    ensures Mixed(k, g + g', e + e', h + h')
  {
    Sums(k, e, e');
  }

  lemma Sums(k: real, x: real, y: real)
    ensures k * (x + y) == k * x + k * y
  {}

  lemma Linear(w: real, a: real, k: real, b: real)
    ensures w * (k * a + b) == k * (w * a) + w * b
  {}

  lemma CrossLinear(c: Coefs, j: nat, k: real, l: real, r: real, d: real, t: real, l': real, r': real, d': real, t': real)
    requires Fit(c, |c.ym|) && 0 < j <= |c.ym|
    ensures Cross(c, j, k * l + l', k * r + r', k * d + d', k * t + t') == k * Cross(c, j, l, r, d, t) + Cross(c, j, l', r', d', t')
  {
    Linear(c.xm[j - 1], l, k, l');
    Linear(c.xp[j - 1], r, k, r');
    Linear(c.ym[j - 1], d, k, d');
    Linear(c.yp[j - 1], t, k, t');
    Sums(k, c.xm[j - 1] * l, c.xp[j - 1] * r);
    Sums(k, c.xm[j - 1] * l + c.xp[j - 1] * r, c.ym[j - 1] * d);
    Sums(k, c.xm[j - 1] * l + c.xp[j - 1] * r + c.ym[j - 1] * d, c.yp[j - 1] * t);
  }

  lemma GetLinear(g: seq<real>, e: seq<real>, k: real, h: seq<real>, p: int)
    requires Combined(g, e, k, h)
    ensures Get(g, p) == k * Get(e, p) + Get(h, p)
  {}
}
