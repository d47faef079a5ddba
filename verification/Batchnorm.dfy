/** Batch normalisation as a linear map of channels, over several clusters: cluster g takes rows g, g + clusters, ... */
module Batchnorm {
  import opened Arithmetic
  import opened Maxpool
  import DoubleBuffer

  /** `rows` is the number of rows of cluster `id`; `tile` channels at a time, `share` per compute core. */
  datatype Norm = Norm(CI: nat, IH: nat, IW: nat, tile: nat, blocks: nat, cores: nat, share: nat, clusters: nat, id: nat, rows: nat)

  predicate Sane(l: Norm) {
    && l.IW > 0 && l.share > 0 && l.cores > 0 && l.blocks > 0 && l.rows > 0 && l.clusters > 0
    && l.CI == l.blocks * l.tile && l.tile == l.share * l.cores
    && l.id < l.clusters && l.id + (l.rows - 1) * l.clusters < l.IH <= l.id + l.rows * l.clusters
  }

  /** Element (row, column, channel) of a feature map. */
  function Element(l: Norm, oh: nat, ow: nat, c: nat): nat { At(At(oh, l.IW, ow), l.CI, c) }

  function Row(l: Norm, i: nat): nat
    requires l.blocks > 0
  {
    At(Quot(i, l.blocks), l.clusters, l.id)
  }

  /** Element x of tile i: both feature maps have the same layout. */
  function Place(l: Norm, i: nat, x: nat): nat
    requires Sane(l)
  {
    MulFar(l.share, l.cores);
    Element(l, Row(l, i), Quot(x, l.tile), At(Rem(i, l.blocks), l.tile, Rem(x, l.tile)))
  }

  function Channel(l: Norm, i: nat, x: nat): nat
    requires Sane(l)
  {
    MulFar(l.share, l.cores);
    At(Rem(i, l.blocks), l.tile, Rem(x, l.tile))
  }

  /** The q-th output of core j: the column runs fastest (the repeated multiply-add), then the core's channels. */
  function Turn(l: Norm, j: nat, q: nat): nat
    requires Sane(l)
  {
    At(Rem(q, l.IW), l.tile, At(Quot(q, l.IW), l.cores, j))
  }

  function JobOf<E>(l: Norm, ifmap: seq<E>, mac: (E, E, E) -> E, gamma: nat -> E, beta: nat -> E, blank: E): DoubleBuffer.Job<E>
    requires Sane(l)
  {
    DoubleBuffer.Job(
      At(l.rows, l.blocks, 0), At(l.IW, l.tile, 0), At(l.IW, l.tile, 0), l.cores, At(l.share, l.IW, 0),
      (j: nat, q: nat) => Turn(l, j, q),
      (e: nat) => [e],
      (i: nat, e: nat, x: E) => mac(x, gamma(Channel(l, i, e)), beta(Channel(l, i, e))),
      (i: nat, e: nat, acc: E, x: E) => acc,
      ifmap,
      (i: nat, x: nat) => Place(l, i, x),
      (i: nat, e: nat) => Place(l, i, e),
      blank)
  }

  lemma RowBound(l: Norm, i: nat)
    requires Sane(l) && i < At(l.rows, l.blocks, 0)
    ensures Quot(i, l.blocks) < l.rows && Row(l, i) < l.IH
  {
    QuotBound(i, l.rows, l.blocks);
    RowBelow(Quot(i, l.blocks), l.rows, l.clusters);
  }

  lemma RowBelow(r: nat, rows: nat, clusters: nat)
    requires r < rows
    ensures r * clusters <= (rows - 1) * clusters
  {
    assert (rows - 1 - r) * clusters >= 0;
    assert (rows - 1) * clusters == (rows - 1 - r) * clusters + r * clusters;
  }

  lemma PlaceBound(l: Norm, i: nat, x: nat)
    requires Sane(l) && i < At(l.rows, l.blocks, 0) && x < At(l.IW, l.tile, 0)
    ensures Place(l, i, x) < l.IH * l.IW * l.CI
  {
    MulFar(l.share, l.cores);
    RowBound(l, i);
    QuotBound(x, l.IW, l.tile);
    PairBound(Rem(i, l.blocks), Rem(x, l.tile), l.blocks, l.tile);
    PairBound(Row(l, i), Quot(x, l.tile), l.IH, l.IW);
    PairBound(At(Row(l, i), l.IW, Quot(x, l.tile)), Channel(l, i, x), l.IH * l.IW, l.CI);
  }

  lemma ElementUnique(l: Norm, oh: nat, ow: nat, c: nat, oh': nat, ow': nat, c': nat)
    requires ow < l.IW && ow' < l.IW && c < l.CI && c' < l.CI && Element(l, oh, ow, c) == Element(l, oh', ow', c')
    ensures oh == oh' && ow == ow' && c == c'
  {
    QuotPair(At(oh, l.IW, ow), c, l.CI);
    QuotPair(At(oh', l.IW, ow'), c', l.CI);
    QuotPair(oh, ow, l.IW);
    QuotPair(oh', ow', l.IW);
  }

  lemma ChannelBound(l: Norm, i: nat, x: nat)
    requires Sane(l)
    ensures Channel(l, i, x) < l.CI
  {
    MulFar(l.share, l.cores);
    PairBound(Rem(i, l.blocks), Rem(x, l.tile), l.blocks, l.tile);
  }

  lemma PlaceUnique(l: Norm, i: nat, x: nat, i': nat, x': nat)
    requires Sane(l) && x < At(l.IW, l.tile, 0) && x' < At(l.IW, l.tile, 0) && Place(l, i, x) == Place(l, i', x')
    ensures i == i' && x == x'
  {
    MulFar(l.share, l.cores);
    QuotBound(x, l.IW, l.tile);
    QuotBound(x', l.IW, l.tile);
    ChannelBound(l, i, x);
    ChannelBound(l, i', x');
    ElementUnique(l, Row(l, i), Quot(x, l.tile), Channel(l, i, x), Row(l, i'), Quot(x', l.tile), Channel(l, i', x'));
    PairUnique(l.tile, Rem(i, l.blocks), Rem(x, l.tile), Rem(i', l.blocks), Rem(x', l.tile));
    PairUnique(l.clusters, Quot(i, l.blocks), l.id, Quot(i', l.blocks), l.id);
    SameParts(i, i', l.blocks);
    SameParts(x, x', l.tile);
  }

  lemma SameParts(x: nat, y: nat, d: nat)
    requires d > 0 && Quot(x, d) == Quot(y, d) && Rem(x, d) == Rem(y, d)
    ensures x == y
  {
    assert x == Quot(x, d) * d + Rem(x, d);
    assert y == Quot(y, d) * d + Rem(y, d);
  }

  lemma TurnBound(l: Norm, j: nat, q: nat)
    requires Sane(l) && j < l.cores && q < At(l.share, l.IW, 0)
    ensures At(Quot(q, l.IW), l.cores, j) < l.tile && Turn(l, j, q) < At(l.IW, l.tile, 0)
  {
    QuotBound(q, l.share, l.IW);
    PairBound(Quot(q, l.IW), j, l.share, l.cores);
    PairBound(Rem(q, l.IW), At(Quot(q, l.IW), l.cores, j), l.IW, l.tile);
  }

  lemma TurnUnique(l: Norm, j: nat, q: nat, j': nat, q': nat)
    requires Sane(l) && j < l.cores && j' < l.cores && q < At(l.share, l.IW, 0) && q' < At(l.share, l.IW, 0) && Turn(l, j, q) == Turn(l, j', q')
    ensures j == j' && q == q'
  {
    TurnBound(l, j, q);
    TurnBound(l, j', q');
    PairUnique(l.tile, Rem(q, l.IW), At(Quot(q, l.IW), l.cores, j), Rem(q', l.IW), At(Quot(q', l.IW), l.cores, j'));
    PairUnique(l.cores, Quot(q, l.IW), j, Quot(q', l.IW), j');
    SameParts(q, q', l.IW);
  }

  /** The core and the turn that make output e. */
  lemma TurnOf(l: Norm, e: nat) returns (j: nat, q: nat)
    requires Sane(l) && e < At(l.IW, l.tile, 0)
    ensures j < l.cores && q < At(l.share, l.IW, 0) && Turn(l, j, q) == e
  {
    MulFar(l.share, l.cores);
    QuotBound(e, l.IW, l.tile);
    var c := Rem(e, l.tile);
    QuotBound(c, l.share, l.cores);
    j, q := Rem(c, l.cores), At(Quot(c, l.cores), l.IW, Quot(e, l.tile));
    PairBound(Quot(c, l.cores), Quot(e, l.tile), l.share, l.IW);
    QuotPair(Quot(c, l.cores), Quot(e, l.tile), l.IW);
  }

  lemma JobLegal<E>(l: Norm, ifmap: seq<E>, mac: (E, E, E) -> E, gamma: nat -> E, beta: nat -> E, blank: E)
    requires Sane(l) && |ifmap| == l.IH * l.IW * l.CI
    ensures DoubleBuffer.Legal(JobOf(l, ifmap, mac, gamma, beta, blank))
    ensures DoubleBuffer.Placed(JobOf(l, ifmap, mac, gamma, beta, blank), |ifmap|)
  {
    var job := JobOf(l, ifmap, mac, gamma, beta, blank);
    MulFar(l.rows, l.blocks);
    MulFar(l.share, l.IW);
    forall j: nat, q: nat | j < job.cores && q < job.quota ensures job.work(j, q) < job.outLen {
      TurnBound(l, j, q);
    }
    forall j: nat, q: nat, j': nat, q': nat | j < job.cores && q < job.quota && j' < job.cores && q' < job.quota && job.work(j, q) == job.work(j', q')
      ensures j == j' && q == q'
    {
      TurnUnique(l, j, q, j', q');
    }
    forall e: nat | e < job.outLen ensures DoubleBuffer.Made(job, e) {
      var j, q := TurnOf(l, e);
      assert job.work(j, q) == e;
    }
    forall i: nat, x: nat | i < job.tiles && x < job.inLen ensures job.src(i, x) < |ifmap| && job.dst(i, x) < |ifmap| {
      PlaceBound(l, i, x);
    }
    forall i: nat, e: nat, i': nat, e': nat | i < job.tiles && e < job.outLen && i' < job.tiles && e' < job.outLen && job.dst(i, e) == job.dst(i', e')
      ensures i == i' && e == e'
    {
      PlaceUnique(l, i, e, i', e');
    }
  }

  /** The tile and the element of it that hold (row, column, channel). */
  lemma Find(l: Norm, r: nat, ow: nat, c: nat) returns (i: nat, e: nat)
    requires Sane(l) && r < l.rows && ow < l.IW && c < l.CI
    ensures i < At(l.rows, l.blocks, 0) && e < At(l.IW, l.tile, 0)
    ensures Place(l, i, e) == Element(l, At(r, l.clusters, l.id), ow, c) && Channel(l, i, e) == c
  {
    MulFar(l.share, l.cores);
    QuotBound(c, l.blocks, l.tile);
    var b, o := Quot(c, l.tile), Rem(c, l.tile);
    i, e := At(r, l.blocks, b), At(ow, l.tile, o);
    PairBound(r, b, l.rows, l.blocks);
    PairBound(ow, o, l.IW, l.tile);
    QuotPair(r, b, l.blocks);
    QuotPair(ow, o, l.tile);
  }

  /** In every interleaving within the cluster: its rows end normalised, channel by channel. */
  lemma LayerResult<E>(l: Norm, ifmap: seq<E>, mac: (E, E, E) -> E, gamma: nat -> E, beta: nat -> E, blank: E,
                       trace: seq<DoubleBuffer.State<E>>, acts: seq<DoubleBuffer.Act>, n: nat, r: nat, ow: nat, c: nat, x: nat)
    requires Sane(l) && |ifmap| == l.IH * l.IW * l.CI && r < l.rows && ow < l.IW && c < l.CI
    requires DoubleBuffer.Behaviour(JobOf(l, ifmap, mac, gamma, beta, blank), trace, acts) && n < |trace| && trace[n].dm.pc == DoubleBuffer.DmFinished
    requires |trace[0].ofmap| == |ifmap| && x == ((r * l.clusters + l.id) * l.IW + ow) * l.CI + c
    ensures x < |trace[n].ofmap| == |ifmap| && trace[n].ofmap[x] == mac(ifmap[x], gamma(c), beta(c))
  {
    var job := JobOf(l, ifmap, mac, gamma, beta, blank);
    JobLegal(l, ifmap, mac, gamma, beta, blank);
    DoubleBuffer.SequentialResult(job, trace, acts, n);
    var i, e := Find(l, r, ow, c);
    PlaceBound(l, i, e);
    assert trace[n].ofmap[job.dst(i, e)] == DoubleBuffer.Output(job, i, e);
  }

  /** ... and the rows of the other clusters are as they were: the clusters do not meet. */
  lemma OtherRows<E>(l: Norm, ifmap: seq<E>, mac: (E, E, E) -> E, gamma: nat -> E, beta: nat -> E, blank: E,
                     trace: seq<DoubleBuffer.State<E>>, acts: seq<DoubleBuffer.Act>, n: nat, g: nat, r: nat, ow: nat, c: nat, x: nat)
    requires Sane(l) && |ifmap| == l.IH * l.IW * l.CI && ow < l.IW && c < l.CI && g < l.clusters && g != l.id
    requires DoubleBuffer.Behaviour(JobOf(l, ifmap, mac, gamma, beta, blank), trace, acts) && n < |trace| && trace[n].dm.pc == DoubleBuffer.DmFinished
    requires |trace[0].ofmap| == |ifmap| && x == ((r * l.clusters + g) * l.IW + ow) * l.CI + c && x < |ifmap|
    ensures |trace[n].ofmap| == |ifmap| && trace[n].ofmap[x] == trace[0].ofmap[x]
  {
    var job := JobOf(l, ifmap, mac, gamma, beta, blank);
    JobLegal(l, ifmap, mac, gamma, beta, blank);
    DoubleBuffer.SequentialResult(job, trace, acts, n);
    forall i: nat, e: nat | i < job.tiles && e < job.outLen ensures job.dst(i, e) != x {
      if job.dst(i, e) == x {
        MulFar(l.share, l.cores);
        QuotBound(e, l.IW, l.tile);
        ChannelBound(l, i, e);
        ElementUnique(l, Row(l, i), Quot(e, l.tile), Channel(l, i, e), At(r, l.clusters, g), ow, c);
        QuotPair(r, g, l.clusters);
        QuotPair(Quot(i, l.blocks), l.id, l.clusters);
        assert false;
      }
    }
    assert DoubleBuffer.NotPlaced(job, x);
  }
}
