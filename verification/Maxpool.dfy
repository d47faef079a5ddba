/** Max pooling on one cluster: the layer as an instance of the double-buffered pipeline. */
module Maxpool {
  import opened Arithmetic
  import DoubleBuffer

  /** Sizes of the layer; `tile` channels are processed at a time by `cores` compute cores, `share` each. */
  datatype Layer = Layer(CI: nat, IH: nat, IW: nat, OH: nat, OW: nat, FH: nat, FW: nat, tile: nat, blocks: nat, cores: nat, share: nat)

  predicate Legal(l: Layer) {
    && l.OH > 0 && l.OW > 0 && l.FH > 0 && l.FW > 0 && l.share > 0 && l.cores > 0 && l.blocks > 0
    && l.CI == l.blocks * l.tile && l.tile == l.share * l.cores
    && l.OH * l.FH <= l.IH && l.OW * l.FW <= l.IW
  }

  function Window(l: Layer): nat { l.FH * l.FW }
  function Positions(l: Layer): nat { l.OH * l.OW }
  function Tiles(l: Layer): nat { Positions(l) * l.blocks }
  function At(r: nat, cols: nat, q: nat): nat { r * cols + q }

  /** Channel c of the window element w (row-major in the window) of output position t (row-major in the output). */
  function InputAt(l: Layer, t: nat, w: nat, c: nat): nat
    requires l.OW > 0 && l.FW > 0
  {
    At(At(At(Quot(t, l.OW), l.FH, Quot(w, l.FW)), l.IW, At(Rem(t, l.OW), l.FW, Rem(w, l.FW))), l.CI, c)
  }

  lemma QuotBound(t: nat, rows: nat, cols: nat)
    requires cols > 0 && t < rows * cols
    ensures Quot(t, cols) < rows && Rem(t, cols) < cols && t == Quot(t, cols) * cols + Rem(t, cols)
  {
    var q := Quot(t, cols);
    assert t == q * cols + Rem(t, cols);
    MulFar(q - rows + 1, cols);
    assert (q - rows + 1) * cols == q * cols - rows * cols + cols;
  }

  lemma QuotPair(r: nat, q: nat, cols: nat)
    requires q < cols
    ensures Quot(r * cols + q, cols) == r && Rem(r * cols + q, cols) == q
  {
    DivUnique(r * cols + q, cols, r, q);
  }

  lemma InputBound(l: Layer, t: nat, w: nat, c: nat)
    requires Legal(l) && t < Positions(l) && w < Window(l) && c < l.CI
    ensures InputAt(l, t, w, c) < l.IH * l.IW * l.CI
  {
    QuotBound(t, l.OH, l.OW);
    QuotBound(w, l.FH, l.FW);
    PairBound(Quot(t, l.OW), Quot(w, l.FW), l.OH, l.FH);
    PairBound(Rem(t, l.OW), Rem(w, l.FW), l.OW, l.FW);
    var y, x := Quot(t, l.OW) * l.FH + Quot(w, l.FW), Rem(t, l.OW) * l.FW + Rem(w, l.FW);
    PairBound(y, x, l.IH, l.IW);
    PairBound(y * l.IW + x, c, l.IH * l.IW, l.CI);
  }

  /** The layer as the pipeline runs it: tile i is channel block i % blocks of output position i / blocks. */
  function JobOf<E>(l: Layer, ifmap: seq<E>, greater: (E, E) -> bool, blank: E): DoubleBuffer.Job<E>
    requires Legal(l)
  {
    DoubleBuffer.Job(
      Tiles(l), At(Window(l), l.tile, 0), l.tile, l.cores, l.share,
      (j: nat, q: nat) => At(q, l.cores, j),
      (e: nat) => [e] + seq(Window(l), w requires 0 <= w < Window(l) => At(w, l.tile, e)),
      (i: nat, e: nat, x: E) => x,
      (i: nat, e: nat, max: E, x: E) => if greater(x, max) then x else max,
      ifmap,
      (i: nat, x: nat) => Source(l, i, x),
      (i: nat, e: nat) => Target(l, i, e),
      blank)
  }

  function Source(l: Layer, i: nat, x: nat): nat
    requires Legal(l)
  {
    MulFar(l.share, l.cores);
    InputAt(l, Quot(i, l.blocks), Quot(x, l.tile), At(Rem(i, l.blocks), l.tile, Rem(x, l.tile)))
  }

  function Target(l: Layer, i: nat, e: nat): nat
    requires Legal(l)
  {
    var t := Quot(i, l.blocks);
    At(At(Quot(t, l.OW), l.OW, Rem(t, l.OW)), l.CI, At(Rem(i, l.blocks), l.tile, e))
  }

  /** Consecutive tiles go to consecutive places. */
  lemma TargetIs(l: Layer, i: nat, e: nat)
    requires Legal(l)
    ensures Target(l, i, e) == At(i, l.tile, e)
  {
    var t, b := Quot(i, l.blocks), Rem(i, l.blocks);
    assert t == Quot(t, l.OW) * l.OW + Rem(t, l.OW) && i == t * l.blocks + b;
    Regroup(t, l.blocks, b, l.tile, e);
  }

  /** The running maximum of the kernel over the first k elements of a window, starting from the first element. */
  ghost function Pool<E>(l: Layer, ifmap: seq<E>, greater: (E, E) -> bool, t: nat, c: nat, k: nat): E
    requires Legal(l) && |ifmap| == l.IH * l.IW * l.CI && t < Positions(l) && c < l.CI && k <= Window(l)
  {
    MulFar(l.FH, l.FW);
    InputBound(l, t, if k == 0 then 0 else k - 1, c);
    if k == 0 then ifmap[InputAt(l, t, 0, c)]
    else
      var x, max := ifmap[InputAt(l, t, k - 1, c)], Pool(l, ifmap, greater, t, c, k - 1);
      if greater(x, max) then x else max
  }

  lemma SourceOf(l: Layer, t: nat, b: nat, w: nat, e: nat)
    requires Legal(l) && b < l.blocks && e < l.tile
    ensures Source(l, At(t, l.blocks, b), At(w, l.tile, e)) == InputAt(l, t, w, At(b, l.tile, e))
  {
    QuotPair(t, b, l.blocks);
    QuotPair(w, e, l.tile);
  }

  lemma SourceBound(l: Layer, i: nat, x: nat)
    requires Legal(l) && i < Tiles(l) && x < At(Window(l), l.tile, 0)
    ensures Source(l, i, x) < l.IH * l.IW * l.CI
  {
    MulFar(l.share, l.cores);
    QuotBound(i, Positions(l), l.blocks);
    QuotBound(x, Window(l), l.tile);
    PairBound(Rem(i, l.blocks), Rem(x, l.tile), l.blocks, l.tile);
    InputBound(l, Quot(i, l.blocks), Quot(x, l.tile), At(Rem(i, l.blocks), l.tile, Rem(x, l.tile)));
  }

  /** Core j makes channels j, j + cores, j + 2 cores, ... of the tile: each channel once. */
  lemma Channels<E>(l: Layer, job: DoubleBuffer.Job<E>)
    requires Legal(l) && job.cores == l.cores && job.quota == l.share && job.outLen == l.tile
    requires forall j: nat, q: nat :: job.work(j, q) == At(q, l.cores, j)
    ensures forall j: nat, q: nat :: j < job.cores && q < job.quota ==> job.work(j, q) < job.outLen
    ensures forall j: nat, q: nat, j': nat, q': nat ::
              (j < job.cores && q < job.quota && j' < job.cores && q' < job.quota && job.work(j, q) == job.work(j', q')) ==> j == j' && q == q'
    ensures forall e: nat :: e < job.outLen ==> DoubleBuffer.Made(job, e)
  {
    forall j: nat, q: nat | j < job.cores && q < job.quota ensures job.work(j, q) < job.outLen {
      PairBound(q, j, l.share, l.cores);
    }
    forall j: nat, q: nat, j': nat, q': nat | j < job.cores && q < job.quota && j' < job.cores && q' < job.quota && job.work(j, q) == job.work(j', q')
      ensures j == j' && q == q'
    {
      QuotPair(q, j, l.cores);
      QuotPair(q', j', l.cores);
    }
    forall e: nat | e < job.outLen ensures DoubleBuffer.Made(job, e) {
      QuotBound(e, l.share, l.cores);
      assert job.work(Rem(e, l.cores), Quot(e, l.cores)) == e;
    }
  }

  lemma JobLegal<E>(l: Layer, ifmap: seq<E>, greater: (E, E) -> bool, blank: E)
    requires Legal(l) && |ifmap| == l.IH * l.IW * l.CI
    ensures DoubleBuffer.Legal(JobOf(l, ifmap, greater, blank))
  {
    var job := JobOf(l, ifmap, greater, blank);
    Channels(l, job);
    MulFar(l.OH, l.OW);
    MulFar(Positions(l), l.blocks);
    MulFar(l.FH, l.FW);
    forall e: nat, k: nat | e < job.outLen && k < |job.needs(e)| ensures job.needs(e)[k] < job.inLen {
      PairBound(if k == 0 then 0 else k - 1, e, Window(l), l.tile);
    }
    forall i: nat, x: nat | i < job.tiles && x < job.inLen ensures job.src(i, x) < |job.ifmap| {
      SourceBound(l, i, x);
    }
  }

  lemma JobPlaced<E>(l: Layer, ifmap: seq<E>, greater: (E, E) -> bool, blank: E)
    requires Legal(l)
    ensures DoubleBuffer.Placed(JobOf(l, ifmap, greater, blank), At(Tiles(l), l.tile, 0))
  {
    var job := JobOf(l, ifmap, greater, blank);
    forall i: nat, e: nat | i < job.tiles && e < job.outLen ensures job.dst(i, e) < At(Tiles(l), l.tile, 0) {
      TargetIs(l, i, e);
      PairBound(i, e, Tiles(l), l.tile);
    }
    forall i: nat, e: nat, i': nat, e': nat | i < job.tiles && e < job.outLen && i' < job.tiles && e' < job.outLen && job.dst(i, e) == job.dst(i', e')
      ensures i == i' && e == e'
    {
      TargetIs(l, i, e);
      TargetIs(l, i', e');
      QuotPair(i, e, l.tile);
      QuotPair(i', e', l.tile);
    }
  }

  /** What the pipeline computes for a tile is the pooling of its channels. */
  lemma {:induction false} ValueIsPool<E>(l: Layer, ifmap: seq<E>, greater: (E, E) -> bool, blank: E, t: nat, b: nat, e: nat, k: nat)
    requires Legal(l) && |ifmap| == l.IH * l.IW * l.CI && t < Positions(l) && b < l.blocks && e < l.tile && k <= Window(l)
    requires DoubleBuffer.Legal(JobOf(l, ifmap, greater, blank)) && At(t, l.blocks, b) < Tiles(l) && At(b, l.tile, e) < l.CI
    ensures DoubleBuffer.Value(JobOf(l, ifmap, greater, blank), At(t, l.blocks, b), e, k + 1) == Pool(l, ifmap, greater, t, At(b, l.tile, e), k)
  {
    var job := JobOf(l, ifmap, greater, blank);
    if k == 0 {
      SourceOf(l, t, b, 0, e);
      assert job.needs(e)[0] == At(0, l.tile, e);
    } else {
      SourceOf(l, t, b, k - 1, e);
      assert job.needs(e)[k] == At(k - 1, l.tile, e);
      ValueIsPool(l, ifmap, greater, blank, t, b, e, k - 1);
    }
  }

  /** In every interleaving of the data-mover core and the compute cores: when the layer is done, every channel of every
      output position is the pooling of its window. */
  lemma LayerResult<E>(l: Layer, ifmap: seq<E>, greater: (E, E) -> bool, blank: E,
                       trace: seq<DoubleBuffer.State<E>>, acts: seq<DoubleBuffer.Act>, n: nat, oh: nat, ow: nat, c: nat)
    requires Legal(l) && |ifmap| == l.IH * l.IW * l.CI && oh < l.OH && ow < l.OW && c < l.CI
    requires DoubleBuffer.Behaviour(JobOf(l, ifmap, greater, blank), trace, acts) && n < |trace| && trace[n].dm.pc == DoubleBuffer.DmFinished
    requires |trace[0].ofmap| == At(Tiles(l), l.tile, 0)
    ensures At(oh, l.OW, ow) < Positions(l) && At(At(oh, l.OW, ow), l.CI, c) < |trace[n].ofmap|
    ensures trace[n].ofmap[At(At(oh, l.OW, ow), l.CI, c)] == Pool(l, ifmap, greater, At(oh, l.OW, ow), c, Window(l))
  {
    var job, t := JobOf(l, ifmap, greater, blank), At(oh, l.OW, ow);
    MulFar(l.share, l.cores);
    PairBound(oh, ow, l.OH, l.OW);
    JobLegal(l, ifmap, greater, blank);
    JobPlaced(l, ifmap, greater, blank);
    DoubleBuffer.SequentialResult(job, trace, acts, n);
    QuotBound(c, l.blocks, l.tile);
    var b, e := Quot(c, l.tile), Rem(c, l.tile);
    PairBound(t, b, Positions(l), l.blocks);
    var i := At(t, l.blocks, b);
    assert job.dst(i, e) == At(t, l.CI, c) by { TargetIs(l, i, e); Regroup(t, l.blocks, b, l.tile, e); }
    ValueIsPool(l, ifmap, greater, blank, t, b, e, Window(l));
    assert trace[n].ofmap[job.dst(i, e)] == DoubleBuffer.Output(job, i, e);
  }

  lemma Regroup(t: nat, blocks: nat, b: nat, tile: nat, e: nat)
    ensures At(At(t, blocks, b), tile, e) == At(t, blocks * tile, At(b, tile, e))
  {
    assert (t * blocks + b) * tile == t * blocks * tile + b * tile;
    assert t * blocks * tile == t * (blocks * tile);
  }

  /** Over numbers the pooling of a window is its maximum. */
  lemma {:induction false} PoolIsMaximum(l: Layer, ifmap: seq<real>, greater: (real, real) -> bool, t: nat, c: nat, k: nat)
    requires Legal(l) && |ifmap| == l.IH * l.IW * l.CI && t < Positions(l) && c < l.CI && k <= Window(l) && Window(l) > 0
    requires forall x: real, y: real :: greater(x, y) <==> x > y
    ensures forall w: nat :: w < Window(l) ==> InputAt(l, t, w, c) < |ifmap|
    ensures var max := Pool(l, ifmap, greater, t, c, k);
            && (forall w: nat :: w < k ==> ifmap[InputAt(l, t, w, c)] <= max)
            && exists w: nat :: w < Window(l) && (w < k || w == 0) && ifmap[InputAt(l, t, w, c)] == max
  {
    forall w: nat | w < Window(l) ensures InputAt(l, t, w, c) < |ifmap| {
      InputBound(l, t, w, c);
    }
    var max := Pool(l, ifmap, greater, t, c, k);
    if k == 0 {
      assert ifmap[InputAt(l, t, 0, c)] == max;
    } else {
      PoolIsMaximum(l, ifmap, greater, t, c, k - 1);
      var before := Pool(l, ifmap, greater, t, c, k - 1);
      if ifmap[InputAt(l, t, k - 1, c)] > before {
        assert ifmap[InputAt(l, t, k - 1, c)] == max;
      } else {
        var w: nat :| w < Window(l) && (w < k - 1 || w == 0) && ifmap[InputAt(l, t, w, c)] == before;
        assert ifmap[InputAt(l, t, w, c)] == max;
      }
    }
  }

  // ----- the layer in rows, columns and channels

  /** The places of channel c in the window of output (oh, ow), by row and column of the window. */
  ghost predicate WindowAt(l: Layer, oh: nat, ow: nat, c: nat, place: (nat, nat) -> nat) {
    forall fh: nat, fw: nat :: PlacedAt(l, oh, ow, c, place, fh, fw)
  }

  predicate PlacedAt(l: Layer, oh: nat, ow: nat, c: nat, place: (nat, nat) -> nat, fh: nat, fw: nat) {
    place(fh, fw) == ((oh * l.FH + fh) * l.IW + (ow * l.FW + fw)) * l.CI + c
  }

  lemma InputIs(l: Layer, oh: nat, ow: nat, c: nat, place: (nat, nat) -> nat, fh: nat, fw: nat)
    requires Legal(l) && oh < l.OH && ow < l.OW && c < l.CI && fh < l.FH && fw < l.FW && WindowAt(l, oh, ow, c, place)
    ensures At(oh, l.OW, ow) < Positions(l) && At(fh, l.FW, fw) < Window(l)
    ensures InputAt(l, At(oh, l.OW, ow), At(fh, l.FW, fw), c) == place(fh, fw) < l.IH * l.IW * l.CI
  {
    PairBound(oh, ow, l.OH, l.OW);
    PairBound(fh, fw, l.FH, l.FW);
    QuotPair(oh, ow, l.OW);
    QuotPair(fh, fw, l.FW);
    assert PlacedAt(l, oh, ow, c, place, fh, fw);
    InputBound(l, At(oh, l.OW, ow), At(fh, l.FW, fw), c);
  }

  /** Whatever the comparison: output (oh, ow, c) is folded from the elements of its window, row by row, column by column,
      starting from the first. `running(fh, fw)` is the running maximum before element (fh, fw). */
  lemma LayerSteps<E>(l: Layer, ifmap: seq<E>, greater: (E, E) -> bool, blank: E,
                      trace: seq<DoubleBuffer.State<E>>, acts: seq<DoubleBuffer.Act>, n: nat, oh: nat, ow: nat, c: nat,
                      out: nat, place: (nat, nat) -> nat)
      returns (running: (nat, nat) -> E)
    requires Legal(l) && |ifmap| == l.IH * l.IW * l.CI && oh < l.OH && ow < l.OW && c < l.CI
    requires DoubleBuffer.Behaviour(JobOf(l, ifmap, greater, blank), trace, acts) && n < |trace| && trace[n].dm.pc == DoubleBuffer.DmFinished
    requires |trace[0].ofmap| == At(Tiles(l), l.tile, 0)
    requires out == (oh * l.OW + ow) * l.CI + c
    requires forall fh: nat, fw: nat :: place(fh, fw) == ((oh * l.FH + fh) * l.IW + (ow * l.FW + fw)) * l.CI + c
    ensures out < |trace[n].ofmap| && trace[n].ofmap[out] == running(l.FH, 0)
    ensures place(0, 0) < |ifmap| && running(0, 0) == ifmap[place(0, 0)]
    ensures forall fh: nat, fw: nat :: fh < l.FH && fw < l.FW ==>
              && place(fh, fw) < |ifmap|
              && var x, max := ifmap[place(fh, fw)], running(fh, fw);
                 running(fh, fw + 1) == if greater(x, max) then x else max
    ensures forall fh: nat :: fh < l.FH ==> running(fh + 1, 0) == running(fh, l.FW)
  {
    LayerResult(l, ifmap, greater, blank, trace, acts, n, oh, ow, c);
    forall fh: nat, fw: nat ensures PlacedAt(l, oh, ow, c, place, fh, fw) {}
    running := WindowSteps(l, ifmap, greater, blank, oh, ow, c, place);
  }

  ghost function PoolAt<E>(l: Layer, ifmap: seq<E>, greater: (E, E) -> bool, blank: E, t: nat, c: nat, fh: nat, fw: nat): E
    requires Legal(l) && |ifmap| == l.IH * l.IW * l.CI && t < Positions(l) && c < l.CI
  {
    if At(fh, l.FW, fw) <= Window(l) then Pool(l, ifmap, greater, t, c, At(fh, l.FW, fw)) else blank
  }

  lemma WindowSteps<E>(l: Layer, ifmap: seq<E>, greater: (E, E) -> bool, blank: E, oh: nat, ow: nat, c: nat, place: (nat, nat) -> nat)
      returns (running: (nat, nat) -> E)
    requires Legal(l) && |ifmap| == l.IH * l.IW * l.CI && oh < l.OH && ow < l.OW && c < l.CI && WindowAt(l, oh, ow, c, place)
    ensures At(oh, l.OW, ow) < Positions(l) && running(l.FH, 0) == Pool(l, ifmap, greater, At(oh, l.OW, ow), c, Window(l))
    ensures place(0, 0) < |ifmap| && running(0, 0) == ifmap[place(0, 0)]
    ensures forall fh: nat, fw: nat :: fh < l.FH && fw < l.FW ==>
              && place(fh, fw) < |ifmap|
              && var x, max := ifmap[place(fh, fw)], running(fh, fw);
                 running(fh, fw + 1) == if greater(x, max) then x else max
    ensures forall fh: nat :: fh < l.FH ==> running(fh + 1, 0) == running(fh, l.FW)
  {
    var t := At(oh, l.OW, ow);
    First(l, ifmap, greater, oh, ow, c, place);
    running := (fh: nat, fw: nat) => PoolAt(l, ifmap, greater, blank, t, c, fh, fw);
    Ends(l, ifmap, greater, blank, t, c);
    forall fh: nat, fw: nat | fh < l.FH && fw < l.FW
      ensures && place(fh, fw) < |ifmap|
              && var x, max := ifmap[place(fh, fw)], running(fh, fw);
                 running(fh, fw + 1) == if greater(x, max) then x else max
    {
      WindowStep(l, ifmap, greater, blank, oh, ow, c, place, fh, fw);
    }
    forall fh: nat | fh < l.FH ensures running(fh + 1, 0) == running(fh, l.FW) {
      RowEnd(l, ifmap, greater, blank, t, c, fh);
    }
  }

  lemma RowEnd<E>(l: Layer, ifmap: seq<E>, greater: (E, E) -> bool, blank: E, t: nat, c: nat, fh: nat)
    requires Legal(l) && |ifmap| == l.IH * l.IW * l.CI && t < Positions(l) && c < l.CI
    ensures PoolAt(l, ifmap, greater, blank, t, c, fh + 1, 0) == PoolAt(l, ifmap, greater, blank, t, c, fh, l.FW)
  {
    assert At(fh + 1, l.FW, 0) == At(fh, l.FW, l.FW);
  }

  lemma First<E>(l: Layer, ifmap: seq<E>, greater: (E, E) -> bool, oh: nat, ow: nat, c: nat, place: (nat, nat) -> nat)
    requires Legal(l) && |ifmap| == l.IH * l.IW * l.CI && oh < l.OH && ow < l.OW && c < l.CI && WindowAt(l, oh, ow, c, place)
    ensures At(oh, l.OW, ow) < Positions(l) && place(0, 0) < |ifmap|
    ensures Pool(l, ifmap, greater, At(oh, l.OW, ow), c, 0) == ifmap[place(0, 0)]
  {
    InputIs(l, oh, ow, c, place, 0, 0);
    assert At(0, l.FW, 0) == 0;
  }

  lemma Ends<E>(l: Layer, ifmap: seq<E>, greater: (E, E) -> bool, blank: E, t: nat, c: nat)
    requires Legal(l) && |ifmap| == l.IH * l.IW * l.CI && t < Positions(l) && c < l.CI
    ensures PoolAt(l, ifmap, greater, blank, t, c, 0, 0) == Pool(l, ifmap, greater, t, c, 0)
    ensures PoolAt(l, ifmap, greater, blank, t, c, l.FH, 0) == Pool(l, ifmap, greater, t, c, Window(l))
  {
    assert At(0, l.FW, 0) == 0 && At(l.FH, l.FW, 0) == Window(l);
  }

  lemma WindowStep<E>(l: Layer, ifmap: seq<E>, greater: (E, E) -> bool, blank: E, oh: nat, ow: nat, c: nat, place: (nat, nat) -> nat,
                      fh: nat, fw: nat)
    requires Legal(l) && |ifmap| == l.IH * l.IW * l.CI && oh < l.OH && ow < l.OW && c < l.CI && WindowAt(l, oh, ow, c, place)
    requires At(oh, l.OW, ow) < Positions(l) && fh < l.FH && fw < l.FW
    ensures && place(fh, fw) < |ifmap|
            && var x, max := ifmap[place(fh, fw)], PoolAt(l, ifmap, greater, blank, At(oh, l.OW, ow), c, fh, fw);
               PoolAt(l, ifmap, greater, blank, At(oh, l.OW, ow), c, fh, fw + 1) == if greater(x, max) then x else max
  {
    InputIs(l, oh, ow, c, place, fh, fw);
    assert At(fh, l.FW, fw + 1) == At(fh, l.FW, fw) + 1;
  }

  /** Over numbers it is the greatest of them. */
  lemma LayerMaximum(l: Layer, ifmap: seq<real>, blank: real, trace: seq<DoubleBuffer.State<real>>, acts: seq<DoubleBuffer.Act>, n: nat,
                     oh: nat, ow: nat, c: nat, out: nat, place: (nat, nat) -> nat)
      returns (mh: nat, mw: nat)
    requires Legal(l) && |ifmap| == l.IH * l.IW * l.CI && oh < l.OH && ow < l.OW && c < l.CI
    requires DoubleBuffer.Behaviour(JobOf(l, ifmap, (x: real, y: real) => x > y, blank), trace, acts)
    requires n < |trace| && trace[n].dm.pc == DoubleBuffer.DmFinished && |trace[0].ofmap| == At(Tiles(l), l.tile, 0)
    requires out == (oh * l.OW + ow) * l.CI + c
    requires forall fh: nat, fw: nat :: place(fh, fw) == ((oh * l.FH + fh) * l.IW + (ow * l.FW + fw)) * l.CI + c
    ensures out < |trace[n].ofmap|
    ensures forall fh: nat, fw: nat :: fh < l.FH && fw < l.FW ==>
              place(fh, fw) < |ifmap| && ifmap[place(fh, fw)] <= trace[n].ofmap[out]
    ensures mh < l.FH && mw < l.FW && ifmap[place(mh, mw)] == trace[n].ofmap[out]
  {
    var greater := (x: real, y: real) => x > y;
    LayerResult(l, ifmap, greater, blank, trace, acts, n, oh, ow, c);
    forall fh: nat, fw: nat ensures PlacedAt(l, oh, ow, c, place, fh, fw) {}
    mh, mw := WindowMaximum(l, ifmap, greater, oh, ow, c, place);
  }

  lemma WindowMaximum(l: Layer, ifmap: seq<real>, greater: (real, real) -> bool, oh: nat, ow: nat, c: nat, place: (nat, nat) -> nat)
      returns (mh: nat, mw: nat)
    requires Legal(l) && |ifmap| == l.IH * l.IW * l.CI && oh < l.OH && ow < l.OW && c < l.CI && WindowAt(l, oh, ow, c, place)
    requires forall x: real, y: real :: greater(x, y) <==> x > y
    ensures At(oh, l.OW, ow) < Positions(l) && mh < l.FH && mw < l.FW && place(mh, mw) < |ifmap|
    ensures ifmap[place(mh, mw)] == Pool(l, ifmap, greater, At(oh, l.OW, ow), c, Window(l))
    ensures forall fh: nat, fw: nat :: fh < l.FH && fw < l.FW ==>
              place(fh, fw) < |ifmap| && ifmap[place(fh, fw)] <= Pool(l, ifmap, greater, At(oh, l.OW, ow), c, Window(l))
  {
    PairBound(oh, ow, l.OH, l.OW);
    MulFar(l.FH, l.FW);
    var t := At(oh, l.OW, ow);
    PoolIsMaximum(l, ifmap, greater, t, c, Window(l));
    var max := Pool(l, ifmap, greater, t, c, Window(l));
    forall fh: nat, fw: nat | fh < l.FH && fw < l.FW ensures place(fh, fw) < |ifmap| && ifmap[place(fh, fw)] <= max {
      InputIs(l, oh, ow, c, place, fh, fw);
    }
    var w: nat :| w < Window(l) && ifmap[InputAt(l, t, w, c)] == max;
    QuotBound(w, l.FH, l.FW);
    mh, mw := Quot(w, l.FW), Rem(w, l.FW);
    InputIs(l, oh, ow, c, place, mh, mw);
  }
}
