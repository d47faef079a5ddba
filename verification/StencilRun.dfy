/** The streamed star stencil on all cores and over all time steps: barriers separate the steps, and within a step the
    cores may take their turns in any order. */
module StencilRun {
  import opened Arithmetic
  import opened Ssr
  import opened Rotation
  import opened Stencil
  import opened StencilKernel

  // ----- cores

  function Ix(s: Shape, cid: nat): (r: nat)
    requires Legal(s)
    ensures r < s.px
  {
    Rem(cid, s.px)
  }

  function Iy(s: Shape, cid: nat): (r: nat)
    requires Legal(s)
    ensures r < s.py
  {
    Rem(Quot(cid, s.px), s.py)
  }

  /** The core that draws the point (y, x) in step t. */
  function Drawer(s: Shape, t: nat, y: nat, x: nat): nat
    requires Legal(s)
  {
    var d := DealOf(s);
    Number(d, OwnerX(d, t, BlockOf(s, y), BlockOf(s, x)), OwnerY(d, t, BlockOf(s, y)))
  }

  /** Core cid draws (y, x) in step t. */
  predicate DrawnBy(s: Shape, t: nat, y: nat, x: nat, cid: nat)
    requires Legal(s)
  {
    Draws(DealOf(s), Ix(s, cid), Iy(s, cid), t, BlockOf(s, y), BlockOf(s, x))
  }

  /** In every step every inner point is drawn by exactly one core. */
  lemma OneDrawer(s: Shape, t: nat, y: nat, x: nat, cid: nat)
    requires Legal(s) && cid < s.px * s.py
    ensures Drawer(s, t, y, x) < s.px * s.py
    ensures DrawnBy(s, t, y, x, cid) <==> cid == Drawer(s, t, y, x)
  {
    var d, b, a := DealOf(s), BlockOf(s, y), BlockOf(s, x);
    OneOwner(d, Ix(s, cid), Iy(s, cid), t, b, a);
    Numbered(d, cid, OwnerX(d, t, b, a), OwnerY(d, t, b));
  }

  /** The points drawn by the cores in `seen`. */
  function CoresDone(s: Shape, t: nat, seen: seq<nat>): Done
    requires Legal(s)
  {
    (y: nat, x: nat) => Inner(s, y, x) && Drawer(s, t, y, x) in seen
  }

  lemma StepFresh(s: Shape, c: Coefs, src: seq<real>, was: seq<real>, now: seq<real>, done: Done, ix: nat, iy: nat, t: nat)
    requires Legal(s) && Fit(c, s.r) && ix < s.px && iy < s.py && Painted(s, c, src, was, now, done)
    ensures Painted(s, c, src, was, now, StepDone(s, done, ix, iy, t, RowAt(DealOf(s), iy, t)))
  {
    var f := StepDone(s, done, ix, iy, t, RowAt(DealOf(s), iy, t));
    forall y: nat, x: nat | y < s.n && x < s.n ensures done(y, x) == f(y, x) {
      FreshPoint(s, done, ix, iy, t, y, x);
    }
    Repaint(s, c, src, was, now, done, f);
  }

  lemma FreshPoint(s: Shape, done: Done, ix: nat, iy: nat, t: nat, y: nat, x: nat)
    requires Legal(s) && ix < s.px && iy < s.py
    ensures done(y, x) == StepDone(s, done, ix, iy, t, RowAt(DealOf(s), iy, t))(y, x)
  {
    assert BlockOf(s, y) < s.py ==> Place(BlockOf(s, y), s.py) == BlockOf(s, y);
  }

  lemma NextCore(s: Shape, c: Coefs, src: seq<real>, was: seq<real>, now: seq<real>, t: nat, seen: seq<nat>, cid: nat, end: nat)
    requires Legal(s) && Fit(c, s.r) && cid < s.px * s.py && Edge(s) <= 2 * end
    requires Painted(s, c, src, was, now, StepDone(s, CoresDone(s, t, seen), Ix(s, cid), Iy(s, cid), t, end))
    ensures Painted(s, c, src, was, now, CoresDone(s, t, seen + [cid]))
  {
    var f, g := StepDone(s, CoresDone(s, t, seen), Ix(s, cid), Iy(s, cid), t, end), CoresDone(s, t, seen + [cid]);
    forall y: nat, x: nat | y < s.n && x < s.n ensures f(y, x) == g(y, x) {
      CorePoint(s, t, seen, cid, end, y, x);
    }
    Repaint(s, c, src, was, now, f, g);
  }

  lemma CorePoint(s: Shape, t: nat, seen: seq<nat>, cid: nat, end: nat, y: nat, x: nat)
    requires Legal(s) && cid < s.px * s.py && Edge(s) <= 2 * end
    ensures StepDone(s, CoresDone(s, t, seen), Ix(s, cid), Iy(s, cid), t, end)(y, x) == CoresDone(s, t, seen + [cid])(y, x)
  {
    OneDrawer(s, t, y, x, cid);
    var inner := Inner(s, y, x);
    assert inner ==> BlockOf(s, y) < end;
    assert CoresDone(s, t, seen)(y, x) == (inner && Drawer(s, t, y, x) in seen);
    assert CoresDone(s, t, seen + [cid])(y, x) == (inner && (Drawer(s, t, y, x) in seen || Drawer(s, t, y, x) == cid));
  }

  /** Every core once. */
  ghost predicate Order(order: seq<nat>, cores: nat) {
    && (forall i :: 0 <= i < |order| ==> order[i] < cores)
    && (forall i, j :: 0 <= i < j < |order| ==> order[i] != order[j])
    && (forall cid: nat :: cid < cores ==> cid in order)
  }

  ghost predicate Tuned(lanes: seq<Lane>)
    reads lanes
  {
    forall i :: 0 <= i < |lanes| ==> lanes[i].Configured() && lanes[i].repeat == 3
  }

  /** Where the cores stand: those in `seen` are a step ahead of t. */
  ghost predicate AllStand(s: Shape, t: nat, seen: seq<nat>, lx: seq<nat>, ly: seq<nat>)
    requires Legal(s)
  {
    && |lx| == |ly| == s.px * s.py
    && forall cid: nat :: cid < |lx| ==> StandsAt(s, if cid in seen then t + 1 else t, cid, lx[cid], ly[cid])
  }

  ghost predicate StandsAt(s: Shape, t: nat, cid: nat, lx: nat, ly: nat)
    requires Legal(s)
  {
    Stands(s, Ix(s, cid), Iy(s, cid), t, lx, ly)
  }

  /** The turn of one core. */
  method Turn1(src: seq<real>, dst: array<real>, k: Kit, l: Lane, lx: nat, ly: nat, ghost c: Coefs, ghost was: seq<real>, ghost t: nat,
               ghost seen: seq<nat>, ghost cid: nat)
      returns (lx': nat, ly': nat)
    requires Ready(k, c) && |src| == k.s.n * k.s.n && l.Configured() && l.repeat == 3 && cid < k.s.px * k.s.py
    requires StandsAt(k.s, t, cid, lx, ly) && Painted(k.s, c, src, was, dst[..], CoresDone(k.s, t, seen))
    modifies dst, l
    ensures l.Configured() && l.repeat == 3
    ensures StandsAt(k.s, t + 1, cid, lx', ly') && Painted(k.s, c, src, was, dst[..], CoresDone(k.s, t, seen + [cid]))
  {
    ghost var done := CoresDone(k.s, t, seen);
    StepFresh(k.s, c, src, was, dst[..], done, Ix(k.s, cid), Iy(k.s, cid), t);
    ghost var end;
    lx', ly', end := Step(src, dst, k, l, lx, ly, c, was, done, Ix(k.s, cid), Iy(k.s, cid), t);
    NextCore(k.s, c, src, was, dst[..], t, seen, cid, end);
  }

  /** One time step: the cores take their turns in the given order. */
  method TimeStep(src: array<real>, dst: array<real>, k: Kit, lanes: seq<Lane>, lx: seq<nat>, ly: seq<nat>, order: seq<nat>,
                  ghost c: Coefs, ghost t: nat)
      returns (lx': seq<nat>, ly': seq<nat>)
    requires Ready(k, c) && src != dst && src.Length == dst.Length == k.s.n * k.s.n
    requires |lanes| == k.s.px * k.s.py && Tuned(lanes) && Order(order, |lanes|) && AllStand(k.s, t, [], lx, ly)
    modifies dst, lanes
    ensures Tuned(lanes) && AllStand(k.s, t + 1, [], lx', ly')
    ensures dst[..] == Stepped(k.s, c, src[..], old(dst[..]))
  {
    ghost var was := dst[..];
    lx', ly' := lx, ly;
    var from := src[..];
    NothingDone(k.s, c, from, was, t);
    for i := 0 to |order|
      invariant Tuned(lanes) && AllStand(k.s, t, order[..i], lx', ly')
      invariant Painted(k.s, c, from, was, dst[..], CoresDone(k.s, t, order[..i]))
    {
      var cid := order[i];
      assert cid !in order[..i];
      assert StandsAt(k.s, t, cid, lx'[cid], ly'[cid]);
      var x, y := Turn1(from, dst, k, lanes[cid], lx'[cid], ly'[cid], c, was, t, order[..i], cid);
      assert order[..i + 1] == order[..i] + [cid];
      lx', ly' := lx'[cid := x], ly'[cid := y];
    }
    assert order[..|order|] == order;
    AllDone(k.s, c, from, was, dst[..], t, order);
    EveryoneStands(k.s, t, order, lx', ly');
  }

  lemma NothingDone(s: Shape, c: Coefs, src: seq<real>, was: seq<real>, t: nat)
    requires Legal(s) && Fit(c, s.r) && |was| == s.n * s.n
    ensures Painted(s, c, src, was, was, CoresDone(s, t, []))
  {}

  lemma AllDone(s: Shape, c: Coefs, src: seq<real>, was: seq<real>, now: seq<real>, t: nat, order: seq<nat>)
    requires Legal(s) && Fit(c, s.r) && Order(order, s.px * s.py) && Painted(s, c, src, was, now, CoresDone(s, t, order))
    ensures now == Stepped(s, c, src, was)
  {
    var f := CoresDone(s, t, order);
    forall y: nat, x: nat | y < s.n && x < s.n ensures f(y, x) == Inner(s, y, x) {
      assert 0 < s.px * s.py by { MulFar(s.px, s.py); }
      OneDrawer(s, t, y, x, 0);
    }
    PaintedAll(s, c, src, was, now, f);
  }

  lemma EveryoneStands(s: Shape, t: nat, order: seq<nat>, lx: seq<nat>, ly: seq<nat>)
    requires Legal(s) && Order(order, s.px * s.py) && AllStand(s, t, order, lx, ly)
    ensures AllStand(s, t + 1, [], lx, ly)
  {
    forall cid: nat | cid < |lx|
      ensures StandsAt(s, t + 1, cid, lx[cid], ly[cid])
    {
      assert cid in order;
    }
  }

  /** Where the cores start (lines 58 to 64 of istc.common.hpp). */
  method Start(s: Shape) returns (lx: seq<nat>, ly: seq<nat>)
    requires Legal(s)
    ensures AllStand(s, 0, [], lx, ly)
  {
    lx := seq(s.px * s.py, cid requires 0 <= cid => Ix(s, cid) * UNROLL);
    ly := seq(s.px * s.py, cid requires 0 <= cid => Iy(s, cid) * UNROLL);
    forall cid: nat | cid < |lx|
      ensures StandsAt(s, 0, cid, lx[cid], ly[cid])
    {
      FirstStand(s, cid, lx[cid], ly[cid]);
    }
  }

  lemma FirstStand(s: Shape, cid: nat, lx: nat, ly: nat)
    requires Legal(s) && lx == Ix(s, cid) * UNROLL && ly == Iy(s, cid) * UNROLL
    ensures StandsAt(s, 0, cid, lx, ly)
  {}

  /** Each core sets up its tables and the repetition of its coefficient stream. */
  method Prepare(s: Shape, c: Coefs, cab: nat, lanes: seq<Lane>) returns (k: (Shape, seq<int>, seq<int>, seq<real>))
    requires Legal(s) && Narrow(s) && Fit(c, s.r) && cab + 8 * (1 + 4 * s.r) <= WORD && forall i :: 0 <= i < |lanes| ==> lanes[i].Configured()
    modifies lanes
    ensures Tuned(lanes) && k.0 == s && Ready(Kit(s, k.1, k.2, k.3, cab, Places(s, s.r)), c)
  {
    for i := 0 to |lanes|
      invariant forall j :: 0 <= j < |lanes| ==> lanes[j].Configured()
      invariant forall j :: 0 <= j < i ==> lanes[j].repeat == 3
    {
      lanes[i].Repeat(4);
    }
    var i0, i1 := Tables(s);
    var ca := Buffer(c, s.r);
    k := (s, i0, i1, ca);
    TablesReady(Kit(s, i0, i1, ca, cab, Places(s, s.r)), c);
  }

  /** The two grids, with the roles they have before step t. */
  ghost predicate Grids(a: seq<real>, b: seq<real>, grids: (seq<real>, seq<real>), t: nat) {
    if t % 2 == 0 then grids == (a, b) else grids == (b, a)
  }

  /** The time loop; a barrier ends every step. */
  method Steps(a: array<real>, b: array<real>, k: Kit, lanes: seq<Lane>, orders: seq<seq<nat>>, ghost c: Coefs)
    requires Ready(k, c) && a != b && a.Length == b.Length == k.s.n * k.s.n && |lanes| == k.s.px * k.s.py && Tuned(lanes)
    requires forall t :: 0 <= t < |orders| ==> Order(orders[t], |lanes|)
    modifies a, b, lanes
    ensures Grids(a[..], b[..], After(k.s, c, old(a[..]), old(b[..]), |orders|), |orders|)
  {
    var lx, ly := Start(k.s);
    for t := 0 to |orders|
      invariant Tuned(lanes) && AllStand(k.s, t, [], lx, ly)
      invariant Grids(a[..], b[..], After(k.s, c, old(a[..]), old(b[..]), t), t)
    {
      if t % 2 == 0 {
        lx, ly := TimeStep(a, b, k, lanes, lx, ly, orders[t], c, t);
      } else {
        lx, ly := TimeStep(b, a, k, lanes, lx, ly, orders[t], c, t);
      }
    }
  }

  /** The whole kernel: after any number of steps, with the cores in any order in each, the two grids are those of the
      plain stencil. `cab` is the address of the coefficient table. */
  method Run(a: array<real>, b: array<real>, s: Shape, c: Coefs, cab: nat, lanes: seq<Lane>, orders: seq<seq<nat>>)
    requires Legal(s) && Narrow(s) && Fit(c, s.r) && a != b && a.Length == b.Length == s.n * s.n
    requires |lanes| == s.px * s.py && cab + 8 * (1 + 4 * s.r) <= WORD && forall i :: 0 <= i < |lanes| ==> lanes[i].Configured()
    requires forall t :: 0 <= t < |orders| ==> Order(orders[t], |lanes|)
    modifies a, b, lanes
    ensures Grids(a[..], b[..], After(s, c, old(a[..]), old(b[..]), |orders|), |orders|)
  {
    var p := Prepare(s, c, cab, lanes);
    Steps(a, b, Kit(s, p.1, p.2, p.3, cab, Places(s, s.r)), lanes, orders, c);
  }

  // ----- stores in any order

  /** The target grid after stores of the stencil at these points, one after the other. */
  function Stored(s: Shape, c: Coefs, src: seq<real>, g: seq<real>, points: seq<(nat, nat)>): seq<real>
    requires Fit(c, s.r) && |g| == s.n * s.n && forall i :: 0 <= i < |points| ==> Inner(s, points[i].0, points[i].1)
    ensures |Stored(s, c, src, g, points)| == |g|
    decreases |points|
  {
    if points == [] then g
    else
      var (y, x) := points[|points| - 1];
      assert Inner(s, points[|points| - 1].0, points[|points| - 1].1);
      AtInside(s.n, y, x);
      Stored(s, c, src, g, points[..|points| - 1])[At(s.n, y, x) := Star(c, src, s.n, y, x, s.r)]
  }

  /** Whatever the interleaving of the cores' stores, a step comes out the same: it only takes that every inner point is
      stored. */
  lemma {:induction false} AnyInterleaving(s: Shape, c: Coefs, src: seq<real>, g: seq<real>, points: seq<(nat, nat)>)
    requires s.n > 0 && Fit(c, s.r) && |g| == s.n * s.n && forall i :: 0 <= i < |points| ==> Inner(s, points[i].0, points[i].1)
    requires forall y: nat, x: nat :: Inner(s, y, x) ==> (y, x) in points
    ensures Stored(s, c, src, g, points) == Stepped(s, c, src, g)
  {
    StoredPaints(s, c, src, g, points);
    var f: Done := (y: nat, x: nat) => (y, x) in points;
    PaintedAll(s, c, src, g, Stored(s, c, src, g, points), f);
  }

  lemma {:induction false} StoredPaints(s: Shape, c: Coefs, src: seq<real>, g: seq<real>, points: seq<(nat, nat)>)
    requires Fit(c, s.r) && |g| == s.n * s.n && forall i :: 0 <= i < |points| ==> Inner(s, points[i].0, points[i].1)
    ensures Painted(s, c, src, g, Stored(s, c, src, g, points), (y: nat, x: nat) => (y, x) in points)
    decreases |points|
  {
    var f: Done := (y: nat, x: nat) => (y, x) in points;
    if points == [] {
    } else {
      var front := points[..|points| - 1];
      var (y, x) := points[|points| - 1];
      assert points == front + [(y, x)];
      var f': Done := (y: nat, x: nat) => (y, x) in front;
      StoredPaints(s, c, src, g, front);
      AtInside(s.n, y, x);
      PaintOne(s, c, src, g, Stored(s, c, src, g, front), f', y, x, Star(c, src, s.n, y, x, s.r), Stored(s, c, src, g, points));
      Repaint(s, c, src, g, Stored(s, c, src, g, points), Plus(f', y, x), f);
    }
  }
}
