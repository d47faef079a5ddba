/** The streamed batch normalisation of one core's channels of a tile: one stream reads the tile, one writes its result,
    and a repeated multiply-add goes down each channel. */
module BatchnormKernel {
  import opened Arithmetic
  import opened Maxpool
  import opened Ssr
  import opened Batchnorm
  import DoubleBuffer

  // ----- the streams

  /** Elements and stores of one core. */
  function Quota(l: Norm): nat { At(l.share, l.IW, 0) }

  function Size(l: Norm): nat { At(l.IW, l.tile, 0) }

  predicate Fits(l: Norm, base: nat) { Sane(l) && base + 8 * Size(l) < WORD }

  /** The registers hold the nest of lines 37 and 38. */
  ghost predicate Programmed(l: Norm, lane: Lane)
    reads lane
  {
    && Sane(l) && lane.Configured() && lane.repeat == 0
    && lane.bound[..2] == [l.IW - 1, l.share - 1] && lane.stride[..2] == Wraps(Deltas(lane.bound[..2], [8 * l.tile, 8 * l.cores], 0))
  }

  lemma Small(l: Norm, base: nat)
    requires Fits(l, base)
    ensures 0 < l.share <= l.tile && 0 < l.cores <= l.tile && l.IW <= Size(l) && l.tile <= Size(l) && Quot(l.tile, l.cores) == l.share
  {
    MulFar(l.share, l.cores);
    MulFar(l.cores, l.share);
    MulFar(l.tile, l.IW);
    MulFar(l.IW, l.tile);
    QuotPair(l.share, 0, l.cores);
  }

  /** For every core: element t of a stream over a tile at `base` is that of column t % IW and of the core's channel number
      t / IW, which is where its turn t is. */
  lemma StreamTurn(l: Norm, bound: seq<nat>, stride: seq<nat>, base: nat, j: nat, t: nat)
    requires Fits(l, base) && j < l.cores && t < Quota(l) && |bound| == |stride| == 2
    requires bound == [l.IW - 1, l.share - 1] && stride == Wraps(Deltas(bound, [8 * l.tile, 8 * l.cores], 0))
    ensures Walk(bound, stride, base + 8 * j, t) == base + 8 * Turn(l, j, t)
    ensures Turn(l, j, t) == (t % l.IW) * l.tile + (t / l.IW * l.cores + j)
  {
    var q, i := Rem(t, l.IW), Quot(t, l.IW);
    QuotBound(t, l.share, l.IW);
    NestAt(l.IW, l.share, 8 * l.tile, 8 * l.cores, bound, stride, base + 8 * j, q, i, t);
    Inside(l, base, j, t);
  }

  function Spot(base: nat, q: nat, s0: nat, i: nat, s1: nat): nat { Wrap(base + q * s0 + i * s1) }

  lemma NestAt(w: nat, share: nat, s0: nat, s1: nat, bound: seq<nat>, stride: seq<nat>, base: nat, q: nat, i: nat, t: nat)
    requires q < w && i < share && t == At(i, w, q) && |bound| == |stride| == 2
    requires bound == [w - 1, share - 1] && stride == Wraps(Deltas(bound, [s0, s1], 0))
    ensures Walk(bound, stride, base, t) == Spot(base, q, s0, i, s1)
  {
    assert t == q + (bound[0] + 1) * i;
    Element2(bound, stride, [s0, s1], base, q, i);
  }

  /** The address of turn t in the nest is that of its element, and it does not wrap. */
  lemma Inside(l: Norm, base: nat, j: nat, t: nat)
    requires Fits(l, base) && j < l.cores && t < Quota(l)
    ensures Spot(base + 8 * j, Rem(t, l.IW), 8 * l.tile, Quot(t, l.IW), 8 * l.cores) == base + 8 * Turn(l, j, t)
  {
    TurnBound(l, j, t);
    Scaled(Rem(t, l.IW), l.tile, Quot(t, l.IW), l.cores);
    Kept(base + 8 * Turn(l, j, t));
  }

  lemma Scaled(q: nat, tile: nat, i: nat, cores: nat)
    ensures q * (8 * tile) + i * (8 * cores) == 8 * (q * tile + i * cores)
  {}

  /** Started at the tile at `base`, gone past t elements. */
  ghost predicate Running(l: Norm, lane: Lane, base: nat, j: nat, t: nat)
    reads lane
  {
    && Programmed(l, lane) && lane.Valid() && |lane.idx| == 2 && lane.base == base + 8 * j && lane.served == 0 && lane.steps == t
  }

  /** The configuration functions, called when the kernel sets its streams up. */
  method Program(l: Norm, lane: Lane, ghost base: nat)
    requires Fits(l, base) && lane.Configured() && lane.repeat == 0
    modifies lane
    ensures Programmed(l, lane)
  {
    Small(l, base);
    lane.Loop2d(l.IW, l.tile / l.cores, 8 * l.tile, 8 * l.cores);
    Kept(l.IW - 1);
    Kept(l.share - 1);
    assert lane.bound[..2] == [l.IW - 1, l.share - 1];
    assert lane.stride[..2] == Wraps(Deltas([l.IW - 1, l.share - 1], [8 * l.tile, 8 * l.cores], 0));
  }

  lemma Kept(x: nat)
    requires x < WORD
    ensures Wrap(x) == x
  {}

  lemma NextPlace(l: Norm, lane: Lane, base: nat, j: nat, t: nat)
    requires Fits(l, base) && j < l.cores && t < Quota(l) && Running(l, lane, base, j, t)
    ensures Turn(l, j, t) < Size(l)
    ensures Walk(lane.bound[..2], lane.stride[..2], lane.base, t) == base + 8 * Turn(l, j, t)
  {
    StreamTurn(l, lane.bound[..2], lane.stride[..2], base, j, t);
    TurnBound(l, j, t);
  }

  /** The index of the element at an address. */
  function IndexOf(address: nat, base: nat, ghost e: nat): (i: nat)
    requires address == base + 8 * e
    ensures i == e
  {
    (address - base) / 8
  }

  method Fetch<E>(l: Norm, mem: array<E>, lane: Lane, base: nat, ghost j: nat, ghost t: nat) returns (x: E)
    requires Fits(l, base) && j < l.cores && t < Quota(l) && mem.Length == Size(l) && Running(l, lane, base, j, t)
    modifies lane`idx, lane`ptr, lane`served, lane`steps
    ensures Running(l, lane, base, j, t + 1) && Turn(l, j, t) < mem.Length && x == mem[Turn(l, j, t)]
  {
    NextPlace(l, lane, base, j, t);
    ghost var e := Turn(l, j, t);
    var address := lane.Pop();
    x := mem[IndexOf(address, base, e)];
  }

  method Store<E>(l: Norm, mem: array<E>, lane: Lane, base: nat, x: E, ghost j: nat, ghost t: nat)
    requires Fits(l, base) && j < l.cores && t < Quota(l) && mem.Length == Size(l) && Running(l, lane, base, j, t)
    modifies mem, lane`idx, lane`ptr, lane`served, lane`steps
    ensures Running(l, lane, base, j, t + 1) && Turn(l, j, t) < mem.Length && mem[..] == old(mem[..])[Turn(l, j, t) := x]
  {
    NextPlace(l, lane, base, j, t);
    ghost var e := Turn(l, j, t);
    var address := lane.Pop();
    mem[IndexOf(address, base, e)] := x;
  }

  // ----- the kernel

  /** The element is in a channel of core j, and it is among the core's first t. */
  predicate Done(l: Norm, j: nat, t: nat, e: nat)
    requires Sane(l)
  {
    MulFar(l.share, l.cores);
    Rem(Rem(e, l.tile), l.cores) == j && Number(l, e) < t
  }

  ghost predicate Normalised<E>(l: Norm, mac: (E, E, E) -> E, gamma: seq<E>, beta: seq<E>, src: seq<E>, was: seq<E>, now: seq<E>, j: nat, t: nat)
    requires Sane(l)
  {
    && |src| == |was| == |now| == Size(l) && |gamma| == |beta| == l.tile
    && forall e: nat :: e < |now| ==> now[e] == Normal(l, mac, gamma, beta, src, was, j, t, e)
  }

  ghost function Normal<E>(l: Norm, mac: (E, E, E) -> E, gamma: seq<E>, beta: seq<E>, src: seq<E>, was: seq<E>, j: nat, t: nat, e: nat): E
    requires Sane(l) && |src| == |was| && |gamma| == |beta| == l.tile && e < |was|
  {
    MulFar(l.share, l.cores);
    if Done(l, j, t, e) then mac(src[e], gamma[Rem(e, l.tile)], beta[Rem(e, l.tile)]) else was[e]
  }

  /** Where an element is in its core's order. */
  function Number(l: Norm, e: nat): nat
    requires Sane(l)
  {
    MulFar(l.share, l.cores);
    At(Quot(Rem(e, l.tile), l.cores), l.IW, Quot(e, l.tile))
  }

  lemma NumberOfTurn(l: Norm, j: nat, t: nat)
    requires Sane(l) && j < l.cores && t < Quota(l) && l.tile > 0
    ensures Rem(Rem(Turn(l, j, t), l.tile), l.cores) == j && Number(l, Turn(l, j, t)) == t
  {
    TurnBound(l, j, t);
    QuotPair(Rem(t, l.IW), At(Quot(t, l.IW), l.cores, j), l.tile);
    QuotPair(Quot(t, l.IW), j, l.cores);
  }

  lemma NumberUnique(l: Norm, e: nat, f: nat)
    requires Sane(l) && l.tile > 0 && e < Size(l) && f < Size(l) && Rem(Rem(e, l.tile), l.cores) == Rem(Rem(f, l.tile), l.cores) && Number(l, e) == Number(l, f)
    ensures e == f
  {
    MulFar(l.share, l.cores);
    QuotBound(e, l.IW, l.tile);
    QuotBound(f, l.IW, l.tile);
    PairUnique(l.IW, Quot(Rem(e, l.tile), l.cores), Quot(e, l.tile), Quot(Rem(f, l.tile), l.cores), Quot(f, l.tile));
    SameParts(Rem(e, l.tile), Rem(f, l.tile), l.cores);
    SameParts(e, f, l.tile);
  }

  /** The next element done is that of the next turn. */
  lemma DoneNext(l: Norm, j: nat, t: nat, e: nat)
    requires Sane(l) && j < l.cores && t < Quota(l) && e < Size(l)
    ensures Done(l, j, t + 1, e) <==> Done(l, j, t, e) || e == Turn(l, j, t)
    ensures !Done(l, j, t, Turn(l, j, t))
  {
    MulFar(l.share, l.cores);
    TurnBound(l, j, t);
    NumberOfTurn(l, j, t);
    if Done(l, j, t + 1, e) && Number(l, e) == t { NumberUnique(l, e, Turn(l, j, t)); }
  }

  lemma NormalNext<E>(l: Norm, mac: (E, E, E) -> E, gamma: seq<E>, beta: seq<E>, src: seq<E>, was: seq<E>, now: seq<E>, j: nat, t: nat, i: nat, x: E)
    requires Sane(l) && j < l.cores && t < Quota(l) && Normalised(l, mac, gamma, beta, src, was, now, j, t) && i == Quot(t, l.IW)
    requires At(i, l.cores, j) < l.tile && Turn(l, j, t) < |src|
    requires x == mac(src[Turn(l, j, t)], gamma[At(i, l.cores, j)], beta[At(i, l.cores, j)])
    ensures Normalised(l, mac, gamma, beta, src, was, now[Turn(l, j, t) := x], j, t + 1)
  {
    TurnBound(l, j, t);
    QuotPair(Rem(t, l.IW), At(i, l.cores, j), l.tile);
    var next := now[Turn(l, j, t) := x];
    forall e: nat | e < |next|
      ensures next[e] == Normal(l, mac, gamma, beta, src, was, j, t + 1, e)
    {
      DoneNext(l, j, t, e);
    }
  }

  lemma NormalStart<E>(l: Norm, mac: (E, E, E) -> E, gamma: seq<E>, beta: seq<E>, src: seq<E>, was: seq<E>, j: nat)
    requires Sane(l) && |src| == |was| == Size(l) && |gamma| == |beta| == l.tile
    ensures Normalised(l, mac, gamma, beta, src, was, was, j, 0)
  {
  }

  /** One issue of the repeated multiply-add: turn t, in the core's channel i. */
  method Issue<E>(l: Norm, mac: (E, E, E) -> E, src: array<E>, dst: array<E>, xb: nat, yb: nat, g: E, b: E, l0: Lane, l1: Lane,
                  ghost gamma: seq<E>, ghost beta: seq<E>, ghost was: seq<E>, ghost j: nat, ghost t: nat, ghost i: nat)
    requires Fits(l, xb) && Fits(l, yb) && j < l.cores && t < Quota(l) && i == Quot(t, l.IW) && src != dst && l0 != l1
    requires src.Length == dst.Length == Size(l) && Running(l, l0, xb, j, t) && Running(l, l1, yb, j, t)
    requires Normalised(l, mac, gamma, beta, src[..], was, dst[..], j, t)
    requires At(i, l.cores, j) < l.tile && g == gamma[At(i, l.cores, j)] && b == beta[At(i, l.cores, j)]
    modifies dst, l0`idx, l0`ptr, l0`served, l0`steps, l1`idx, l1`ptr, l1`served, l1`steps
    ensures Running(l, l0, xb, j, t + 1) && Running(l, l1, yb, j, t + 1)
    ensures Normalised(l, mac, gamma, beta, src[..], was, dst[..], j, t + 1)
  {
    var x := Fetch(l, src, l0, xb, j, t);
    NormalNext(l, mac, gamma, beta, src[..], was, dst[..], j, t, i, mac(x, g, b));
    Store(l, dst, l1, yb, mac(x, g, b), j, t);
  }

  lemma InChannel(l: Norm, j: nat, i: nat, q: nat)
    requires Sane(l) && j < l.cores && i < l.share && q < l.IW
    ensures At(i, l.IW, q) < Quota(l) && Quot(At(i, l.IW, q), l.IW) == i && At(i, l.cores, j) < l.tile
    ensures At(i, l.IW, q + 1) == At(i, l.IW, q) + 1 && At(i + 1, l.IW, 0) == At(i, l.IW, l.IW)
  {
    PairBound(i, q, l.share, l.IW);
    PairBound(i, j, l.share, l.cores);
    QuotPair(i, q, l.IW);
  }

  /** One channel: frep.o over the columns. */
  method Sweep<E>(l: Norm, mac: (E, E, E) -> E, src: array<E>, dst: array<E>, xb: nat, yb: nat, g: E, b: E, l0: Lane, l1: Lane,
                  ghost gamma: seq<E>, ghost beta: seq<E>, ghost was: seq<E>, ghost j: nat, ghost i: nat)
    requires Fits(l, xb) && Fits(l, yb) && j < l.cores && i < l.share && src != dst && l0 != l1 && src.Length == dst.Length == Size(l)
    requires Running(l, l0, xb, j, At(i, l.IW, 0)) && Running(l, l1, yb, j, At(i, l.IW, 0))
    requires Normalised(l, mac, gamma, beta, src[..], was, dst[..], j, At(i, l.IW, 0))
    requires At(i, l.cores, j) < l.tile && g == gamma[At(i, l.cores, j)] && b == beta[At(i, l.cores, j)]
    modifies dst, l0`idx, l0`ptr, l0`served, l0`steps, l1`idx, l1`ptr, l1`served, l1`steps
    ensures Running(l, l0, xb, j, At(i + 1, l.IW, 0)) && Running(l, l1, yb, j, At(i + 1, l.IW, 0))
    ensures Normalised(l, mac, gamma, beta, src[..], was, dst[..], j, At(i + 1, l.IW, 0))
  {
    InChannel(l, j, i, 0);
    for q := 0 to l.IW
      invariant Running(l, l0, xb, j, At(i, l.IW, q)) && Running(l, l1, yb, j, At(i, l.IW, q))
      invariant Normalised(l, mac, gamma, beta, src[..], was, dst[..], j, At(i, l.IW, q))
    {
      InChannel(l, j, i, q);
      Issue(l, mac, src, dst, xb, yb, g, b, l0, l1, gamma, beta, was, j, At(i, l.IW, q), i);
    }
  }

  /** Lines 36 to 47: the configuration when asked for, and the pointers. */
  method Start(l: Norm, xb: nat, yb: nat, j: nat, setup: bool, l0: Lane, l1: Lane)
    requires Fits(l, xb) && Fits(l, yb) && j < l.cores && l0 != l1
    requires l0.Configured() && l1.Configured() && l0.repeat == l1.repeat == 0
    requires setup || (Programmed(l, l0) && Programmed(l, l1))
    modifies l0, l1
    ensures Running(l, l0, xb, j, 0) && Running(l, l1, yb, j, 0)
  {
    if setup {
      Program(l, l0, xb);
      Program(l, l1, yb);
    }
    PointerFits(l, xb, j);
    PointerFits(l, yb, j);
    l0.Read(2, xb + 8 * j);
    l1.Write(2, yb + 8 * j);
  }

  /** The kernel on core j; the tile and its result are at byte addresses xb and yb, gamma and beta are those of the
      tile's channels. Both streams are used up. */
  method Kernel<E>(l: Norm, mac: (E, E, E) -> E, src: array<E>, dst: array<E>, xb: nat, yb: nat, gamma: seq<E>, beta: seq<E>,
                   j: nat, setup: bool, l0: Lane, l1: Lane)
    requires Fits(l, xb) && Fits(l, yb) && j < l.cores && src != dst && l0 != l1 && src.Length == dst.Length == Size(l)
    requires |gamma| == |beta| == l.tile && l0.Configured() && l1.Configured() && l0.repeat == l1.repeat == 0
    requires setup || (Programmed(l, l0) && Programmed(l, l1))
    modifies dst, l0, l1
    ensures Programmed(l, l0) && Programmed(l, l1) && l0.steps == l1.steps == Quota(l)
    ensures Normalised(l, mac, gamma, beta, src[..], old(dst[..]), dst[..], j, Quota(l)) && l.tile > 0
    ensures forall e: nat :: e < dst.Length ==>
              dst[e] == if e % l.tile % l.cores == j then mac(src[e], gamma[e % l.tile], beta[e % l.tile]) else old(dst[..])[e]
  {
    ghost var was := dst[..];
    Start(l, xb, yb, j, setup, l0, l1);
    NormalStart(l, mac, gamma, beta, src[..], was, j);
    var ci := 0;
    ghost var i := 0;
    while ci < l.tile
      invariant ci == At(i, l.cores, 0) && i <= l.share
      invariant Running(l, l0, xb, j, At(i, l.IW, 0)) && Running(l, l1, yb, j, At(i, l.IW, 0))
      invariant Normalised(l, mac, gamma, beta, src[..], was, dst[..], j, At(i, l.IW, 0))
    {
      Going(l, i);
      InChannel(l, j, i, 0);
      Sweep(l, mac, src, dst, xb, yb, gamma[j + ci], beta[j + ci], l0, l1, gamma, beta, was, j, i);
      ci, i := ci + l.cores, i + 1;
    }
    Going(l, i);
    forall e: nat | e < dst.Length
      ensures l.tile > 0 && dst[e] == if e % l.tile % l.cores == j then mac(src[e], gamma[e % l.tile], beta[e % l.tile]) else was[e]
    {
      WholeChannel(l, mac, gamma, beta, src[..], was, dst[..], j, e);
      assert dst[e] == dst[..][e] && src[e] == src[..][e];
    }
  }

  /** After the last turn all of the core's channels are done. */
  lemma WholeChannel<E>(l: Norm, mac: (E, E, E) -> E, gamma: seq<E>, beta: seq<E>, src: seq<E>, was: seq<E>, now: seq<E>, j: nat, e: nat)
    requires Sane(l) && j < l.cores && Normalised(l, mac, gamma, beta, src, was, now, j, Quota(l)) && e < |now|
    ensures l.tile > 0
    ensures now[e] == if e % l.tile % l.cores == j then mac(src[e], gamma[e % l.tile], beta[e % l.tile]) else was[e]
  {
    MulFar(l.share, l.cores);
    var c := Rem(e, l.tile);
    QuotBound(e, l.IW, l.tile);
    QuotBound(c, l.share, l.cores);
    PairBound(Quot(c, l.cores), Quot(e, l.tile), l.share, l.IW);
    assert now[e] == Normal(l, mac, gamma, beta, src, was, j, Quota(l), e);
  }

  lemma Going(l: Norm, i: nat)
    requires Sane(l) && i <= l.share
    ensures At(i, l.cores, 0) < l.tile <==> i < l.share
  {
    if i < l.share { GroupFits(i, l.share, l.cores); }
  }

  lemma PointerFits(l: Norm, base: nat, j: nat)
    requires Fits(l, base) && j < l.cores
    ensures base + 8 * j < WORD
  {
    Small(l, base);
  }

  // ----- what the tiles and the data mover see of it

  /** Coefficient c of the channels of tile i. */
  function OfTile<E>(l: Norm, coef: nat -> E, i: nat): (s: seq<E>)
    requires Sane(l)
    ensures |s| == l.tile
  {
    MulFar(l.share, l.cores);
    seq(l.tile, (c: nat) => coef(At(Rem(i, l.blocks), l.tile, c)))
  }

  /** Core j leaves, in the places of its turns, what the double-buffered run has it compute for tile i; the other
      places are as they were. */
  lemma KernelIsJob<E>(l: Norm, ifmap: seq<E>, mac: (E, E, E) -> E, gamma: nat -> E, beta: nat -> E, blank: E,
                       i: nat, src: seq<E>, was: seq<E>, now: seq<E>, j: nat, e: nat)
    requires Sane(l) && |ifmap| == l.IH * l.IW * l.CI && i < At(l.rows, l.blocks, 0) && j < l.cores && e < Size(l)
    requires Normalised(l, mac, OfTile(l, gamma, i), OfTile(l, beta, i), src, was, now, j, Quota(l))
    requires Place(l, i, e) < |ifmap| && src[e] == ifmap[Place(l, i, e)]
    ensures DoubleBuffer.Legal(Batchnorm.JobOf(l, ifmap, mac, gamma, beta, blank))
    ensures now[e] == if Taken(l, j, e) then DoubleBuffer.Output(Batchnorm.JobOf(l, ifmap, mac, gamma, beta, blank), i, e) else was[e]
  {
    Batchnorm.JobLegal(l, ifmap, mac, gamma, beta, blank);
    TakenDone(l, j, e);
    OutputOf(l, ifmap, mac, gamma, beta, blank, i, e);
    var g, b := OfTile(l, gamma, i), OfTile(l, beta, i);
    assert now[e] == Normal(l, mac, g, b, src, was, j, Quota(l), e);
  }

  lemma OutputOf<E>(l: Norm, ifmap: seq<E>, mac: (E, E, E) -> E, gamma: nat -> E, beta: nat -> E, blank: E, i: nat, e: nat)
    requires Sane(l) && DoubleBuffer.Legal(Batchnorm.JobOf(l, ifmap, mac, gamma, beta, blank))
    requires i < At(l.rows, l.blocks, 0) && e < Size(l) && Place(l, i, e) < |ifmap|
    ensures DoubleBuffer.Output(Batchnorm.JobOf(l, ifmap, mac, gamma, beta, blank), i, e)
            == mac(ifmap[Place(l, i, e)], gamma(Channel(l, i, e)), beta(Channel(l, i, e)))
  {
  }

  ghost predicate Taken(l: Norm, j: nat, e: nat)
    requires Sane(l)
  {
    exists t: nat :: t < Quota(l) && Turn(l, j, t) == e
  }

  /** The elements done after the last turn are those of the turns. */
  lemma TakenDone(l: Norm, j: nat, e: nat)
    requires Sane(l) && j < l.cores && e < Size(l)
    ensures Taken(l, j, e) <==> Done(l, j, Quota(l), e)
  {
    if t: nat :| t < Quota(l) && Turn(l, j, t) == e {
      DoneNext(l, j, t, e);
    }
    var j', t' := TurnOf(l, e);
    DoneNext(l, j', t', e);
    assert Taken(l, j', e);
  }

  /** Elements the loop over the channels takes from either stream, for any tile width. */
  function Demand(l: Norm): nat
    requires l.cores > 0
  {
    At(Quot(l.tile + l.cores - 1, l.cores), l.IW, 0)
  }

  /** Elements of a stream as it is programmed: with fewer channels than cores the outer bound wraps around. */
  function Supply(l: Norm): nat
    requires l.cores > 0
  {
    Volume(Counts([Last(l.IW), Last(Quot(l.tile, l.cores))]))
  }

  /** The streams have as many elements as the loop takes exactly when the cores divide the channels of a tile. */
  lemma DemandExactly(l: Norm)
    requires 0 < l.cores && 0 < l.IW <= WORD && 0 < l.tile < WORD
    ensures Demand(l) == (l.tile + l.cores - 1) / l.cores * l.IW
    ensures Supply(l) == l.IW * (if l.tile < l.cores then 0x1_0000_0000 else l.tile / l.cores)
    ensures Supply(l) == Demand(l) <==> l.tile % l.cores == 0
  {
    var q := Quot(l.tile, l.cores);
    var trips := if Rem(l.tile, l.cores) == 0 then q else q + 1;
    Ceiling(l.tile, l.cores);
    QuotLeast(l.tile, l.cores);
    LastIs(l.IW);
    LastIs(q);
    SupplyIs(Last(l.IW), Last(q));
    Longer(trips, Last(q) + 1, l.IW);
    NoQuotient(l.tile, l.cores);
  }

  lemma NoQuotient(x: nat, d: nat)
    requires d > 0
    ensures Quot(x, d) == 0 <==> x < d
  {
    assert x == At(Quot(x, d), d, Rem(x, d));
    MulFar(Quot(x, d), d);
  }

  /** The last index of a loop of n iterations, as it is programmed. */
  function Last(n: nat): nat { Wrap(n - 1) }

  lemma LastIs(n: nat)
    requires n <= WORD
    ensures Last(n) + 1 == if n == 0 then WORD else n
  {}

  lemma QuotLeast(x: nat, d: nat)
    requires 0 < x < WORD && d > 0
    ensures Quot(x, d) < WORD && (Quot(x, d) == 0 ==> Rem(x, d) > 0)
  {
    var q := Quot(x, d);
    assert x == At(q, d, Rem(x, d));
    Least(q, d);
  }

  lemma Least(q: nat, d: nat)
    requires d > 0
    ensures q * d >= q
  {}

  lemma SupplyIs(b0: nat, b1: nat)
    ensures Volume(Counts([b0, b1])) == (b0 + 1) * (b1 + 1)
  {
    assert Counts([b0, b1])[1..] == [b1 + 1];
    assert Volume([b1 + 1]) == b1 + 1;
  }

  lemma Longer(x: nat, y: nat, w: nat)
    requires w > 0
    ensures w * y == At(x, w, 0) <==> x == y
  {
    MulFar(x - y, w);
    assert (x - y) * w == x * w - w * y;
  }

  lemma Ceiling(x: nat, d: nat)
    requires d > 0
    ensures Quot(x + d - 1, d) == if Rem(x, d) == 0 then Quot(x, d) else Quot(x, d) + 1
  {
    var q, r := Quot(x, d), Rem(x, d);
    assert x == At(q, d, r);
    RowUp(q, d, r);
    if r == 0 {
      QuotPair(q, d - 1, d);
    } else {
      QuotPair(q + 1, r - 1, d);
    }
  }

  lemma RowUp(q: nat, d: nat, r: nat)
    requires d > 0
    ensures r == 0 ==> At(q, d, d - 1) == At(q, d, r) + d - 1
    ensures r > 0 ==> At(q + 1, d, r - 1) == At(q, d, r) + d - 1
  {}
}
