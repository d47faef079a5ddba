/** How the streamed stencil shares a grid among cores: blocks of two by two points, dealt out cyclically along each axis,
    with the deal turned by half a round after every row of blocks and after every time step. */
module Rotation {
  import opened Arithmetic

  /** Cores along x and y, and the blocks along an edge. */
  datatype Deal = Deal(px: nat, py: nat, w: nat)

  predicate Even(d: Deal) { Axis(d.px) && Axis(d.py) }
  predicate Axis(p: nat) { 0 < p && p % 2 == 0 }
  predicate Odd(k: nat) { k > 0 && !Odd(k - 1) }

  lemma {:induction false} OddIs(k: nat)
    ensures Odd(k) <==> k % 2 == 1
  {
    if k == 0 {
    } else {
      OddIs(k - 1);
    }
  }

  lemma {:induction false} OddSum(x: nat, y: nat)
    ensures Odd(x + y) <==> Odd(x) != Odd(y)
  {
    if y == 0 {
    } else {
      OddSum(x, y - 1);
    }
  }

  /** The place of block b in its round of p blocks, and the rounds before it: b % p and b / p. */
  function Place(b: nat, p: nat): (r: nat)
    requires p > 0
    ensures r < p
  {
    if b < p then b else Place(b - p, p)
  }

  function Round(b: nat, p: nat): nat
    requires p > 0
  {
    if b < p then 0 else 1 + Round(b - p, p)
  }

  lemma {:induction false} PlaceRound(b: nat, p: nat)
    requires p > 0
    ensures Place(b, p) == b % p && Round(b, p) == b / p
  {
    if b < p {
      assert 0 * p == 0;
      DivUnique(b, p, 0, b);
    } else {
      PlaceRound(b - p, p);
      var q := (b - p) / p;
      assert (q + 1) * p == q * p + p;
      DivUnique(b, p, q + 1, (b - p) % p);
    }
  }

  /** No two blocks less than a round apart have the same place. */
  lemma {:induction false} NoneBetween(b: nat, p: nat, b': nat)
    requires p > 0 && b <= b' < b + p && Place(b', p) == Place(b, p)
    ensures b' == b
  {
    if b < p {
    } else {
      NoneBetween(b - p, p, b' - p);
    }
  }

  /** Half a round on. */
  function Turn(b: nat, p: nat): (r: nat)
    requires Axis(p) && b < p
    ensures r < p
  {
    if b < p / 2 then b + p / 2 else b - p / 2
  }

  function Shift(b: nat, p: nat, turned: bool): (r: nat)
    requires Axis(p) && b < p
    ensures r < p
  {
    if turned then Turn(b, p) else b
  }

  /** Shifting by the same amount again undoes it. */
  lemma ShiftBack(b: nat, p: nat, turned: bool)
    requires Axis(p) && b < p
    ensures Shift(Shift(b, p, turned), p, turned) == b
    ensures Turn(Shift(b, p, turned), p) == Shift(b, p, !turned)
  {}

  /** A core's next first point along an axis of p cores, at any parity of p. */
  function Next(l: nat, p: nat): (r: nat)
    requires l < 2 * p
    ensures r < 2 * p
  {
    if l < p then l + p else l - p
  }

  /** The kernel's update of a core's first point. */
  method Rotate(l: nat, p: nat) returns (r: nat)
    requires l < 2 * p
    ensures r == Next(l, p)
  {
    if l < p {
      assert 0 * (2 * p) == 0;
      DivUnique(l + p, 2 * p, 0, l + p);
    } else {
      assert 1 * (2 * p) == 2 * p;
      DivUnique(l + p, 2 * p, 1, l - p);
    }
    r := (l + p) % (2 * p);
  }

  /** On an even axis it is a turn of the core's first block. */
  lemma NextTurns(b: nat, p: nat)
    requires Axis(p) && b < p
    ensures Next(2 * b, p) == 2 * Turn(b, p)
  {}

  /** Where a walk from b in steps of p leaves the w blocks. */
  function Exit(b: nat, w: nat, p: nat): (e: nat)
    requires p > 0
    ensures e >= w && e >= b
    decreases w - b
  {
    if b >= w then b else Exit(b + p, w, p)
  }

  /** The first row of blocks of the cores with index iy in step t. */
  function RowAt(d: Deal, iy: nat, t: nat): (b: nat)
    requires Even(d) && iy < d.py
    ensures b < d.py
  {
    Shift(iy, d.py, Odd(t))
  }

  /** Whether these cores start step t with their columns turned: a turn for every row they did before. */
  function Turned(d: Deal, iy: nat, t: nat): bool
    requires Even(d) && iy < d.py
  {
    t > 0 && (Turned(d, iy, t - 1) != Odd(Round(Exit(RowAt(d, iy, t - 1), d.w, d.py), d.py)))
  }

  /** The first column of blocks of core (ix, iy) in row b of blocks. */
  function ColAt(d: Deal, ix: nat, iy: nat, t: nat, b: nat): (a: nat)
    requires Even(d) && ix < d.px && iy < d.py
    ensures a < d.px
  {
    Shift(ix, d.px, Turned(d, iy, t) != Odd(Round(b, d.py)))
  }

  /** Core (ix, iy) draws block (b, a) in step t. */
  predicate Draws(d: Deal, ix: nat, iy: nat, t: nat, b: nat, a: nat)
    requires Even(d) && ix < d.px && iy < d.py
  {
    Place(b, d.py) == RowAt(d, iy, t) && Place(a, d.px) == ColAt(d, ix, iy, t, b)
  }

  function OwnerY(d: Deal, t: nat, b: nat): (iy: nat)
    requires Even(d)
    ensures iy < d.py
  {
    Shift(Place(b, d.py), d.py, Odd(t))
  }

  function OwnerX(d: Deal, t: nat, b: nat, a: nat): (ix: nat)
    requires Even(d)
    ensures ix < d.px
  {
    Shift(Place(a, d.px), d.px, Turned(d, OwnerY(d, t, b), t) != Odd(Round(b, d.py)))
  }

  /** In every step, every block is drawn by exactly one core. */
  lemma OneOwner(d: Deal, ix: nat, iy: nat, t: nat, b: nat, a: nat)
    requires Even(d) && ix < d.px && iy < d.py
    ensures Draws(d, ix, iy, t, b, a) <==> ix == OwnerX(d, t, b, a) && iy == OwnerY(d, t, b)
  {
    ShiftBack(iy, d.py, Odd(t));
    ShiftBack(Place(b, d.py), d.py, Odd(t));
    var f := Turned(d, iy, t) != Odd(Round(b, d.py));
    ShiftBack(ix, d.px, f);
    ShiftBack(Place(a, d.px), d.px, f);
  }

  // ----- any number of cores along an axis

  /** The first point, along an axis of p cores, of the core with index i after k updates (lines 477 and 479). */
  function Start(i: nat, p: nat, k: nat): (l: nat)
    requires i < p
    ensures l < 2 * p
  {
    if k == 0 then 2 * i else Next(Start(i, p, k - 1), p)
  }

  /** A row of blocks of two points from `first` on reaches x before the edge (line 453). */
  predicate Hits(first: nat, p: nat, edge: nat, x: nat)
    requires p > 0
    decreases edge - first
  {
    first < edge && (x == first || x == first + 1 || Hits(first + 2 * p, p, edge, x))
  }

  /** The rows of blocks of a core that starts at `first` (line 449). */
  function Rows(first: nat, p: nat, edge: nat): nat
    requires p > 0
    decreases edge - first
  {
    if first >= edge then 0 else 1 + Rows(first + 2 * p, p, edge)
  }

  /** From the row at y0 on, with k column updates before it, a core with column index ix draws the point (y, x). */
  predicate RowsDraw(d: Deal, ix: nat, y0: nat, k: nat, y: nat, x: nat)
    requires ix < d.px && 0 < d.py
    decreases 2 * d.w - y0
  {
    y0 < 2 * d.w
    && (((y == y0 || y == y0 + 1) && Hits(Start(ix, d.px, k), d.px, 2 * d.w, x)) || RowsDraw(d, ix, y0 + 2 * d.py, k + 1, y, x))
  }

  /** The column updates of the cores with index iy before step t: one a row. */
  function Turns(d: Deal, iy: nat, t: nat): nat
    requires iy < d.py
  {
    if t == 0 then 0 else Turns(d, iy, t - 1) + Rows(Start(iy, d.py, t - 1), d.py, 2 * d.w)
  }

  /** Core (ix, iy) draws the point (y, x), counted from the first inner one, in step t. */
  predicate DrawsPoint(d: Deal, ix: nat, iy: nat, t: nat, y: nat, x: nat)
    requires ix < d.px && iy < d.py
  {
    RowsDraw(d, ix, Start(iy, d.py, t), Turns(d, iy, t), y, x)
  }

  lemma {:induction false} StartEven(i: nat, p: nat, k: nat)
    requires i < p && Axis(p)
    ensures Start(i, p, k) == 2 * Shift(i, p, Odd(k))
  {
    if k == 0 {
    } else {
      StartEven(i, p, k - 1);
      ShiftBack(i, p, Odd(k - 1));
      NextTurns(Shift(i, p, Odd(k - 1)), p);
    }
  }

  lemma {:induction false} PlaceLow(b: nat, p: nat)
    requires p > 0
    ensures Place(b, p) <= b
  {
    if b < p {
    } else {
      PlaceLow(b - p, p);
    }
  }

  /** Blocks of a walk: the first one, or one a round further on. */
  lemma Walks(b: nat, p: nat, c: nat)
    requires p > 0
    ensures (c >= b && Place(c, p) == Place(b, p)) <==> c == b || (c >= b + p && Place(c, p) == Place(b + p, p))
  {
    if b <= c < b + p && Place(c, p) == Place(b, p) { NoneBetween(b, p, c); }
  }

  /** Point x is one of the two of block q. */
  predicate InBlock(x: nat, q: nat) { x == 2 * q || x == 2 * q + 1 }

  lemma {:induction false} HitsEven(a: nat, p: nat, w: nat, x: nat, q: nat)
    requires p > 0 && InBlock(x, q) && q < w
    ensures Hits(2 * a, p, 2 * w, x) <==> q >= a && Place(q, p) == Place(a, p)
    decreases w - a
  {
    if a >= w {
    } else {
      HitsEven(a + p, p, w, x, q);
      assert 2 * (a + p) == 2 * a + 2 * p;
      Walks(a, p, q);
    }
  }

  /** With rows at even points: a core draws (y, x) if it has the row, and the row, started where its updates left it,
      reaches x. */
  lemma {:induction false} RowsEven(d: Deal, ix: nat, b: nat, k: nat, y: nat, q: nat, x: nat)
    requires ix < d.px && 0 < d.py && InBlock(y, q) && q < d.w
    ensures RowsDraw(d, ix, 2 * b, k, y, x)
            <==> q >= b && Place(q, d.py) == Place(b, d.py) && Round(q, d.py) >= Round(b, d.py)
                 && Hits(Start(ix, d.px, k + Round(q, d.py) - Round(b, d.py)), d.px, 2 * d.w, x)
    decreases d.w - b
  {
    if b >= d.w {
    } else {
      RowsEven(d, ix, b + d.py, k + 1, y, q, x);
      assert 2 * (b + d.py) == 2 * b + 2 * d.py;
      Walks(b, d.py, q);
      if q >= b { RoundGrows(b, d.py, q); }
      if q >= b + d.py { RoundGrows(b + d.py, d.py, q); }
    }
  }

  lemma {:induction false} RoundGrows(b: nat, p: nat, c: nat)
    requires p > 0 && c >= b
    ensures Round(c, p) >= Round(b, p)
  {
    if b < p {
    } else {
      RoundGrows(b - p, p, c - p);
    }
  }

  lemma {:induction false} RowsAreRounds(b: nat, p: nat, w: nat)
    requires p > 0
    ensures Rows(2 * b, p, 2 * w) == Round(Exit(b, w, p), p) - Round(b, p)
    decreases w - b
  {
    if b >= w {
    } else {
      RowsAreRounds(b + p, p, w);
      assert 2 * (b + p) == 2 * b + 2 * p;
    }
  }

  lemma StepRows(d: Deal, iy: nat, t: nat)
    requires Even(d) && iy < d.py
    ensures Rows(Start(iy, d.py, t), d.py, 2 * d.w) == Round(Exit(RowAt(d, iy, t), d.w, d.py), d.py)
  {
    StartEven(iy, d.py, t);
    RowsAreRounds(RowAt(d, iy, t), d.py, d.w);
  }

  lemma {:induction false} TurnsTurned(d: Deal, iy: nat, t: nat)
    requires Even(d) && iy < d.py
    ensures Odd(Turns(d, iy, t)) == Turned(d, iy, t)
  {
    if t == 0 {
    } else {
      TurnsTurned(d, iy, t - 1);
      StepRows(d, iy, t - 1);
      OddSum(Turns(d, iy, t - 1), Rows(Start(iy, d.py, t - 1), d.py, 2 * d.w));
    }
  }

  lemma ColumnEven(ix: nat, p: nat, k: nat, w: nat, x: nat, q: nat)
    requires ix < p && Axis(p) && InBlock(x, q) && q < w
    ensures Hits(Start(ix, p, k), p, 2 * w, x) <==> Place(q, p) == Shift(ix, p, Odd(k))
  {
    StartEven(ix, p, k);
    HitsEven(Shift(ix, p, Odd(k)), p, w, x, q);
    PlaceLow(q, p);
  }

  /** With even axes the points drawn are those of the blocks dealt out. */
  lemma PointsAreBlocks(d: Deal, ix: nat, iy: nat, t: nat, y: nat, x: nat, b: nat, a: nat)
    requires Even(d) && ix < d.px && iy < d.py && InBlock(y, b) && InBlock(x, a) && b < d.w && a < d.w
    ensures DrawsPoint(d, ix, iy, t, y, x) <==> Draws(d, ix, iy, t, b, a)
  {
    var k, n := Turns(d, iy, t), Round(b, d.py);
    StartEven(iy, d.py, t);
    RowsEven(d, ix, RowAt(d, iy, t), k, y, b, x);
    ColumnEven(ix, d.px, k + n, d.w, x, a);
    TurnsTurned(d, iy, t);
    OddSum(k, n);
    PlaceLow(b, d.py);
  }

  ghost predicate Drawn(d: Deal, t: nat, y: nat, x: nat) {
    exists ix: nat, iy: nat :: ix < d.px && iy < d.py && DrawsPoint(d, ix, iy, t, y, x)
  }

  ghost predicate DrawnOnce(d: Deal, t: nat, y: nat, x: nat) {
    && Drawn(d, t, y, x)
    && forall ix: nat, iy: nat, jx: nat, jy: nat ::
         ix < d.px && iy < d.py && jx < d.px && jy < d.py && DrawsPoint(d, ix, iy, t, y, x) && DrawsPoint(d, jx, jy, t, y, x)
         ==> ix == jx && iy == jy
  }

  lemma EvenDraws(d: Deal, t: nat, y: nat, x: nat)
    requires Even(d) && y < 2 * d.w && x < 2 * d.w
    ensures DrawnOnce(d, t, y, x)
  {
    var ox, oy := OwnerX(d, t, y / 2, x / 2), OwnerY(d, t, y / 2);
    forall ix: nat, iy: nat | ix < d.px && iy < d.py
      ensures DrawsPoint(d, ix, iy, t, y, x) <==> ix == ox && iy == oy
    {
      PointsAreBlocks(d, ix, iy, t, y, x, y / 2, x / 2);
      OneOwner(d, ix, iy, t, y / 2, x / 2);
    }
    assert DrawsPoint(d, ox, oy, t, y, x);
  }

  // ----- an odd number of cores along an axis

  lemma OddNext(l: nat, p: nat)
    requires p % 2 == 1 && l < 2 * p
    ensures Odd(Next(l, p)) <==> !Odd(l)
  {
    OddIs(p);
    if l < p { OddSum(l, p); } else { OddSum(l - p, p); }
  }

  /** With an odd number of cores the update leaves the grid of blocks: after an odd number of updates every core starts
      at an odd point. */
  lemma {:induction false} OddAxisMisses(i: nat, p: nat, k: nat)
    requires p % 2 == 1 && i < p
    ensures Odd(Start(i, p, k)) <==> Odd(k)
  {
    if k == 0 {
      OddIs(2 * i);
    } else {
      OddAxisMisses(i, p, k - 1);
      OddNext(Start(i, p, k - 1), p);
    }
  }

  /** A walk that starts further on misses the first point. */
  lemma {:induction false} FirstMissed(first: nat, p: nat, edge: nat)
    requires p > 0 && first > 0
    ensures !Hits(first, p, edge, 0)
    decreases edge - first
  {
    if first >= edge {
    } else {
      FirstMissed(first + 2 * p, p, edge);
    }
  }

  lemma {:induction false} FirstRowMissed(d: Deal, ix: nat, y0: nat, k: nat, x: nat)
    requires ix < d.px && 0 < d.py && y0 > 0
    ensures !RowsDraw(d, ix, y0, k, 0, x)
    decreases 2 * d.w - y0
  {
    if y0 >= 2 * d.w {
    } else {
      FirstRowMissed(d, ix, y0 + 2 * d.py, k + 1, x);
    }
  }

  /** An odd number of cores along y: nobody draws the first row in step 1. */
  lemma OddRowsMiss(d: Deal, x: nat)
    requires d.py % 2 == 1
    ensures !Drawn(d, 1, 0, x)
  {
    forall ix: nat, iy: nat | ix < d.px && iy < d.py ensures !DrawsPoint(d, ix, iy, 1, 0, x) {
      OddAxisMisses(iy, d.py, 1);
      FirstRowMissed(d, ix, Start(iy, d.py, 1), Turns(d, iy, 1), x);
    }
  }

  /** An odd number of cores along x: a row of blocks after an odd number of updates misses its first point. */
  lemma OddColumnsMiss(d: Deal, ix: nat, iy: nat, t: nat, q: nat)
    requires d.px % 2 == 1 && Axis(d.py) && ix < d.px && iy < d.py && q < d.w
    requires Place(q, d.py) == Shift(iy, d.py, Odd(t)) ==> Odd(Turns(d, iy, t) + Round(q, d.py))
    ensures !DrawsPoint(d, ix, iy, t, 2 * q, 0)
  {
    var k := Turns(d, iy, t) + Round(q, d.py);
    StartEven(iy, d.py, t);
    RowsEven(d, ix, Shift(iy, d.py, Odd(t)), Turns(d, iy, t), 2 * q, q, 0);
    if Odd(k) {
      OddAxisMisses(ix, d.px, k);
      FirstMissed(Start(ix, d.px, k), d.px, 2 * d.w);
    }
  }

  /** The step and the row of blocks where that first shows: step 0 if some core has two rows, otherwise 1 or 2. */
  function MissedAt(d: Deal): (nat, nat) {
    if d.w > d.py then (0, d.py) else if 2 * d.w > d.py then (1, 0) else (2, 0)
  }

  lemma OddColumns(d: Deal)
    requires d.px % 2 == 1 && Axis(d.py) && d.w > 0
    ensures var (t, q) := MissedAt(d); q < d.w && !Drawn(d, t, 2 * q, 0)
  {
    var (t, q) := MissedAt(d);
    forall ix: nat, iy: nat | ix < d.px && iy < d.py ensures !DrawsPoint(d, ix, iy, t, 2 * q, 0) {
      if Place(q, d.py) == Shift(iy, d.py, Odd(t)) { OddTurn(d, iy); }
      OddColumnsMiss(d, ix, iy, t, q);
    }
  }

  lemma OddTurn(d: Deal, iy: nat)
    requires Axis(d.py) && d.w > 0 && iy < d.py && Place(MissedAt(d).1, d.py) == Shift(iy, d.py, Odd(MissedAt(d).0))
    ensures Odd(Turns(d, iy, MissedAt(d).0) + Round(MissedAt(d).1, d.py))
  {
    if d.w > d.py {
      assert Round(d.py, d.py) == 1 + Round(0, d.py);
    } else if 2 * d.w > d.py {
      assert iy == d.py / 2;
      assert Turns(d, iy, 1) == Turns(d, iy, 0) + Rows(d.py, d.py, 2 * d.w);
    } else {
      assert MissedAt(d) == (2, 0) && Odd(1) && !Odd(2) && iy == 0;
      StartEven(0, d.py, 1);
      assert Rows(2 * d.py, d.py, 2 * d.w) == 0 && Rows(d.py, d.py, 2 * d.w) == 0;
      assert Turns(d, 0, 1) == Turns(d, 0, 0) + Rows(0, d.py, 2 * d.w) == 1;
      assert Turns(d, 0, 2) == Turns(d, 0, 1) + Rows(d.py, d.py, 2 * d.w) == 1;
      assert Round(0, d.py) == 0;
    }
  }

  /** The rotation works exactly for even axes: then every inner point is drawn by one core in every step; otherwise
      there is a step that leaves some inner point undrawn. */
  lemma RotationExactly(d: Deal)
    requires 0 < d.px && 0 < d.py && 0 < d.w
    ensures Even(d) <==> forall t: nat, y: nat, x: nat :: y < 2 * d.w && x < 2 * d.w ==> Drawn(d, t, y, x)
    ensures Even(d) <==> forall t: nat, y: nat, x: nat :: y < 2 * d.w && x < 2 * d.w ==> DrawnOnce(d, t, y, x)
  {
    if Even(d) {
      forall t: nat, y: nat, x: nat | y < 2 * d.w && x < 2 * d.w ensures Drawn(d, t, y, x) && DrawnOnce(d, t, y, x) {
        EvenDraws(d, t, y, x);
      }
    } else if d.py % 2 == 1 {
      OddRowsMiss(d, 0);
      assert !DrawnOnce(d, 1, 0, 0);
    } else {
      OddColumns(d);
      assert !DrawnOnce(d, MissedAt(d).0, 2 * MissedAt(d).1, 0);
    }
  }

  // ----- core numbers

  /** The core with indices (ix, iy). */
  function Number(d: Deal, ix: nat, iy: nat): nat { iy * d.px + ix }

  /** Core numbers below px * py and index pairs correspond one to one. */
  lemma Numbered(d: Deal, cid: nat, ix: nat, iy: nat)
    requires 0 < d.px && 0 < d.py && cid < d.px * d.py && ix < d.px && iy < d.py
    ensures Number(d, ix, iy) < d.px * d.py
    ensures (Rem(cid, d.px) == ix && Rem(Quot(cid, d.px), d.py) == iy) <==> cid == Number(d, ix, iy)
  {
    var q := Quot(cid, d.px);
    assert cid == q * d.px + Rem(cid, d.px);
    MulFar(q - d.py, d.px);
    assert (q - d.py) * d.px == q * d.px - d.px * d.py;
    MulFar(d.py - iy, d.px);
    assert (d.py - iy) * d.px == d.px * d.py - iy * d.px;
    assert 0 * d.py == 0;
    DivUnique(q, d.py, 0, q);
    if cid == Number(d, ix, iy) { DivUnique(cid, d.px, iy, ix); }
  }
}
