/** A double-buffered layer on one cluster: the data-mover core loads tiles into, and stores results from, the two
    halves of the input and output buffers while the compute cores work on the other half. The cores meet only at a
    hardware barrier. One act per element moved, read or written; every interleaving between barriers is a run. */
module DoubleBuffer {
  /** The layer: how many tiles, elements per input and output tile, compute cores and outputs per core and tile;
      which output a core makes in its turn q; which inputs an output reads, and how it is folded from them; and where
      the tiles' elements are in the feature maps. */
  datatype Job<!E> = Job(
    tiles: nat, inLen: nat, outLen: nat, cores: nat, quota: nat,
    work: (nat, nat) -> nat, needs: nat -> seq<nat>, first: (nat, nat, E) -> E, step: (nat, nat, E, E) -> E,
    ifmap: seq<E>, src: (nat, nat) -> nat, dst: (nat, nat) -> nat, blank: E)

  ghost predicate Legal<E>(job: Job<E>) {
    && job.tiles > 0 && job.quota > 0
    && (forall j: nat, q: nat :: j < job.cores && q < job.quota ==> job.work(j, q) < job.outLen)
    && (forall j: nat, q: nat, j': nat, q': nat ::
          (j < job.cores && q < job.quota && j' < job.cores && q' < job.quota && job.work(j, q) == job.work(j', q')) ==> j == j' && q == q')
    && (forall e: nat :: e < job.outLen ==> Made(job, e))
    && (forall e: nat :: e < job.outLen ==> |job.needs(e)| > 0)
    && (forall e: nat, k: nat :: e < job.outLen && k < |job.needs(e)| ==> job.needs(e)[k] < job.inLen)
    && (forall i: nat, x: nat :: i < job.tiles && x < job.inLen ==> job.src(i, x) < |job.ifmap|)
  }

  /** The tiles' results go to different places of the output feature map. */
  ghost predicate Placed<E>(job: Job<E>, outSize: nat) {
    && (forall i: nat, e: nat :: i < job.tiles && e < job.outLen ==> job.dst(i, e) < outSize)
    && (forall i: nat, e: nat, i': nat, e': nat ::
          (i < job.tiles && e < job.outLen && i' < job.tiles && e' < job.outLen && job.dst(i, e) == job.dst(i', e')) ==> i == i' && e == e')
  }

  ghost predicate Made<E>(job: Job<E>, e: nat) {
    exists j: nat, q: nat :: j < job.cores && q < job.quota && job.work(j, q) == e
  }

  /** Output e of tile i after its first k reads: what the sequential kernel computes. */
  ghost function Value<E>(job: Job<E>, i: nat, e: nat, k: nat): E
    requires Legal(job) && i < job.tiles && e < job.outLen && 0 < k <= |job.needs(e)|
  {
    var x := job.ifmap[job.src(i, job.needs(e)[k - 1])];
    if k == 1 then job.first(i, e, x) else job.step(i, e, Value(job, i, e, k - 1), x)
  }

  datatype DmPc = Loading(e: nat) | DmArrived | Storing(e: nat) | Last(e: nat) | DmFinished

  /** The data-mover core: its tile, its two buffer selectors and the tile it came from. */
  datatype Dm = Dm(pc: DmPc, tile: nat, writeBuf: nat, readBuf: nat, prev: nat)

  datatype CorePc<E> = Arrived | Reading(q: nat, k: nat, acc: E) | Writing(q: nat, acc: E) | Finished
  datatype Core<E> = Core(pc: CorePc<E>, tile: nat, writeBuf: nat, readBuf: nat)

  datatype State<E> = State(dm: Dm, cores: seq<Core<E>>, inBuf: seq<seq<E>>, outBuf: seq<seq<E>>, ofmap: seq<E>, epoch: nat)

  datatype Act = Move | Compute(j: nat) | Release

  function Flip(b: nat): nat { if b == 0 then 1 else 0 }

  predicate Buffers<E>(job: Job<E>, s: State<E>) {
    && |s.cores| == job.cores && |s.inBuf| == 2 && |s.outBuf| == 2
    && |s.inBuf[0]| == |s.inBuf[1]| == job.inLen && |s.outBuf[0]| == |s.outBuf[1]| == job.outLen
  }

  predicate MoveEnabled<E>(job: Job<E>, s: State<E>) {
    && s.dm.writeBuf < 2 && s.dm.readBuf < 2
    && match s.dm.pc
       case Loading(e) => e < job.inLen ==> job.src(s.dm.tile, e) < |job.ifmap|
       case Storing(e) => e < job.outLen ==> job.dst(s.dm.prev, e) < |s.ofmap|
       case Last(e) => e < job.outLen ==> job.dst(s.dm.prev, e) < |s.ofmap|
       case _ => false
  }

  /** One act of the data-mover core. */
  function MoveAct<E>(job: Job<E>, s: State<E>): State<E>
    requires Buffers(job, s) && MoveEnabled(job, s)
  {
    var dm := s.dm;
    match dm.pc
    case Loading(e) =>
      if e < job.inLen then
        s.(dm := dm.(pc := Loading(e + 1)),
           inBuf := s.inBuf[dm.writeBuf := s.inBuf[dm.writeBuf][e := job.ifmap[job.src(dm.tile, e)]]])
      else s.(dm := dm.(pc := DmArrived))
    case Storing(e) =>
      if e < job.outLen then
        s.(dm := dm.(pc := Storing(e + 1)), ofmap := s.ofmap[job.dst(dm.prev, e) := s.outBuf[Flip(dm.readBuf)][e]])
      else
        s.(dm := Dm(if dm.tile + 1 < job.tiles then Loading(0) else DmArrived, dm.tile + 1,
                    Flip(dm.writeBuf), Flip(dm.readBuf), dm.tile))
    case Last(e) =>
      if e < job.outLen then
        s.(dm := dm.(pc := Last(e + 1)), ofmap := s.ofmap[job.dst(dm.prev, e) := s.outBuf[Flip(dm.readBuf)][e]])
      else s.(dm := dm.(pc := DmFinished))
  }

  predicate ComputeEnabled<E>(job: Job<E>, s: State<E>, j: nat) {
    && j < |s.cores| && s.cores[j].writeBuf < 2 && s.cores[j].readBuf < 2
    && match s.cores[j].pc
       case Reading(q, k, _) =>
         job.work(j, q) < job.outLen && k < |job.needs(job.work(j, q))| && job.needs(job.work(j, q))[k] < job.inLen
       case Writing(q, _) => job.work(j, q) < job.outLen
       case _ => false
  }

  /** One act of compute core j. */
  function ComputeAct<E>(job: Job<E>, s: State<E>, j: nat): State<E>
    requires Buffers(job, s) && ComputeEnabled(job, s, j)
  {
    var c := s.cores[j];
    match c.pc
    case Reading(q, k, acc) =>
      var e := job.work(j, q);
      var x := s.inBuf[c.readBuf][job.needs(e)[k]];
      var acc' := if k == 0 then job.first(c.tile, e, x) else job.step(c.tile, e, acc, x);
      s.(cores := s.cores[j := c.(pc := if k + 1 < |job.needs(e)| then Reading(q, k + 1, acc') else Writing(q, acc'))])
    case Writing(q, acc) =>
      s.(outBuf := s.outBuf[c.writeBuf := s.outBuf[c.writeBuf][job.work(j, q) := acc]],
         cores := s.cores[j := if q + 1 < job.quota then c.(pc := Reading(q + 1, 0, acc))
                               else Core(Arrived, c.tile + 1, Flip(c.writeBuf), Flip(c.readBuf))])
  }

  predicate ReleaseEnabled<E>(s: State<E>) {
    s.dm.pc == DmArrived && forall j :: 0 <= j < |s.cores| ==> s.cores[j].pc == Arrived
  }

  /** The hardware barrier opens for everybody: the data mover goes on to store the tile before (there is none the
      first time) or, after its last tile, to the final store; the compute cores take their next tile, if any. */
  function ReleaseAct<E>(job: Job<E>, s: State<E>): State<E>
    requires ReleaseEnabled(s)
  {
    s.(epoch := s.epoch + 1,
       dm := s.dm.(pc := if s.dm.tile < job.tiles then Storing(if s.dm.tile == 0 then job.outLen else 0) else Last(0)),
       cores := seq(|s.cores|, j requires 0 <= j < |s.cores| =>
                  s.cores[j].(pc := if s.cores[j].tile < job.tiles then Reading(0, 0, job.blank) else Finished)))
  }

  predicate Enabled<E>(job: Job<E>, s: State<E>, a: Act) {
    && Buffers(job, s)
    && match a
       case Move => MoveEnabled(job, s)
       case Compute(j) => ComputeEnabled(job, s, j)
       case Release => ReleaseEnabled(s)
  }

  function Apply<E>(job: Job<E>, s: State<E>, a: Act): State<E>
    requires Enabled(job, s, a)
  {
    match a
    case Move => MoveAct(job, s)
    case Compute(j) => ComputeAct(job, s, j)
    case Release => ReleaseAct(job, s)
  }

  predicate Init<E>(job: Job<E>, s: State<E>) {
    && Buffers(job, s) && s.epoch == 0 && s.dm.pc == Loading(0) && s.dm.tile == 0 && s.dm.writeBuf == 0 && s.dm.readBuf == 0
    && forall j :: 0 <= j < |s.cores| ==> s.cores[j] == Core(Arrived, 0, 0, 0)
  }

  ghost predicate Behaviour<E>(job: Job<E>, trace: seq<State<E>>, acts: seq<Act>) {
    && |trace| == |acts| + 1 && Init(job, trace[0])
    && forall j :: 0 <= j < |acts| ==> Enabled(job, trace[j], acts[j]) && trace[j + 1] == Apply(job, trace[j], acts[j])
  }

  // ----- the invariant

  function Half(i: int): nat { i % 2 }

  /** In epoch r (after r openings of the barrier) the compute cores have tile r - 1, the data mover stores tile r - 2 and
      then loads tile r. */
  predicate DmOk<E>(job: Job<E>, dm: Dm, r: nat) {
    && dm.writeBuf == dm.readBuf == Half(dm.tile)
    && (dm.tile > 0 ==> dm.prev == dm.tile - 1)
    && match dm.pc
       case Loading(e) => dm.tile == r < job.tiles && e <= job.inLen
       case DmArrived => dm.tile == r <= job.tiles
       case Storing(e) => dm.tile + 1 == r <= job.tiles && e <= job.outLen && (dm.tile == 0 ==> e == job.outLen)
       case Last(e) => dm.tile == job.tiles && r == job.tiles + 1 && e <= job.outLen
       case DmFinished => dm.tile == job.tiles && r == job.tiles + 1
  }

  ghost predicate CoreOk<E>(job: Job<E>, c: Core<E>, j: nat, r: nat)
    requires Legal(job) && j < job.cores
  {
    && c.writeBuf == c.readBuf == Half(c.tile)
    && match c.pc
       case Arrived => c.tile == r <= job.tiles
       case Reading(q, k, acc) =>
         && c.tile + 1 == r <= job.tiles && q < job.quota && k < |job.needs(job.work(j, q))|
         && (k > 0 ==> acc == Value(job, c.tile, job.work(j, q), k))
       case Writing(q, acc) =>
         && c.tile + 1 == r <= job.tiles && q < job.quota
         && acc == Value(job, c.tile, job.work(j, q), |job.needs(job.work(j, q))|)
       case Finished => r == job.tiles + 1
  }

  /** How many outputs of its tile a core has written in this epoch. */
  function Written<E>(job: Job<E>, c: Core<E>): nat {
    match c.pc
    case Reading(q, _, _) => q
    case Writing(q, _) => q
    case _ => job.quota
  }

  ghost predicate Holds<E>(job: Job<E>, buf: seq<E>, i: nat, n: nat)
    requires i < job.tiles && n <= job.inLen == |buf| && (forall x: nat :: x < job.inLen ==> job.src(i, x) < |job.ifmap|)
  {
    forall x: nat :: x < n ==> buf[x] == job.ifmap[job.src(i, x)]
  }

  ghost predicate InputsOk<E>(job: Job<E>, s: State<E>)
    requires Legal(job) && Buffers(job, s)
  {
    && (1 <= s.epoch <= job.tiles ==> Holds(job, s.inBuf[Half(s.epoch - 1)], s.epoch - 1, job.inLen))
    && (s.dm.pc.Loading? && s.epoch < job.tiles && s.dm.pc.e <= job.inLen ==> Holds(job, s.inBuf[Half(s.epoch)], s.epoch, s.dm.pc.e))
    && (s.dm.pc.DmArrived? && s.epoch < job.tiles ==> Holds(job, s.inBuf[Half(s.epoch)], s.epoch, job.inLen))
  }

  ghost function Output<E>(job: Job<E>, i: nat, e: nat): E
    requires Legal(job) && i < job.tiles && e < job.outLen
  {
    Value(job, i, e, |job.needs(e)|)
  }

  ghost predicate OutputsOk<E>(job: Job<E>, s: State<E>)
    requires Legal(job) && Buffers(job, s)
  {
    && (1 <= s.epoch <= job.tiles ==>
          forall j: nat, q: nat :: j < job.cores && q < job.quota && q < Written(job, s.cores[j]) ==>
            s.outBuf[Half(s.epoch - 1)][job.work(j, q)] == Output(job, s.epoch - 1, job.work(j, q)))
    && (2 <= s.epoch <= job.tiles + 1 ==>
          forall e: nat :: e < job.outLen ==> s.outBuf[Half(s.epoch)][e] == Output(job, s.epoch - 2, e))
  }

  /** Element e of tile i is in the output feature map. */
  predicate Stored<E>(s: State<E>, i: nat, e: nat) {
    match s.dm.pc
    case Storing(n) => i + 2 < s.epoch || (i + 2 == s.epoch && e < n)
    case Last(n) => i + 2 < s.epoch || (i + 2 == s.epoch && e < n)
    case DmFinished => true
    case _ => i + 1 < s.epoch
  }

  ghost predicate NotPlaced<E>(job: Job<E>, w: nat) {
    forall i: nat, e: nat :: i < job.tiles && e < job.outLen ==> job.dst(i, e) != w
  }

  ghost predicate ResultOk<E>(job: Job<E>, s: State<E>, of0: seq<E>)
    requires Legal(job)
  {
    && |s.ofmap| == |of0| && Placed(job, |of0|)
    && (forall i: nat, e: nat :: i < job.tiles && e < job.outLen ==>
          s.ofmap[job.dst(i, e)] == if Stored(s, i, e) then Output(job, i, e) else of0[job.dst(i, e)])
    && (forall w: nat :: w < |of0| && NotPlaced(job, w) ==> s.ofmap[w] == of0[w])
  }

  ghost predicate Inv<E>(job: Job<E>, s: State<E>, of0: seq<E>) {
    var inv :=
      && Legal(job) && Buffers(job, s) && s.epoch <= job.tiles + 1
      && DmOk(job, s.dm, s.epoch) && CoresOk(job, s)
      && InputsOk(job, s) && OutputsOk(job, s) && ResultOk(job, s, of0);
    inv
  }

  lemma InitInv<E>(job: Job<E>, s: State<E>)
    requires Legal(job) && Init(job, s) && Placed(job, |s.ofmap|)
    ensures Inv(job, s, s.ofmap)
  {}

  lemma HalfFlip(i: nat)
    ensures Half(i) < 2 && Flip(Half(i)) == Half(i + 1) && Half(i + 2) == Half(i) && Half(i) != Half(i + 1)
  {}

  ghost predicate CoresOk<E>(job: Job<E>, s: State<E>)
    requires Legal(job) && |s.cores| == job.cores
  {
    forall j: nat :: j < job.cores ==> CoreOk(job, s.cores[j], j, s.epoch)
  }

  /** What does not concern the outputs leaves them. */
  lemma OutputsSame<E>(job: Job<E>, s: State<E>, s': State<E>)
    requires Legal(job) && Buffers(job, s) && Buffers(job, s') && OutputsOk(job, s)
    requires s'.outBuf == s.outBuf && s'.cores == s.cores && s'.epoch == s.epoch
    ensures OutputsOk(job, s')
  {}

  lemma ResultSame<E>(job: Job<E>, s: State<E>, s': State<E>, of0: seq<E>)
    requires Legal(job) && ResultOk(job, s, of0) && s'.ofmap == s.ofmap
    requires forall i: nat, e: nat :: i < job.tiles && e < job.outLen ==> Stored(s', i, e) == Stored(s, i, e)
    ensures ResultOk(job, s', of0)
  {}

  lemma InputsSame<E>(job: Job<E>, s: State<E>, s': State<E>)
    requires Legal(job) && Buffers(job, s) && Buffers(job, s') && InputsOk(job, s)
    requires s'.inBuf == s.inBuf && s'.epoch == s.epoch && (s'.dm == s.dm || s'.epoch >= job.tiles || s'.dm.pc.Storing? || s'.dm.pc == Loading(0))
    ensures InputsOk(job, s')
  {}

  lemma LoadInputs<E>(job: Job<E>, s: State<E>)
    requires Legal(job) && Buffers(job, s) && DmOk(job, s.dm, s.epoch) && InputsOk(job, s) && s.dm.pc.Loading? && MoveEnabled(job, s)
    ensures InputsOk(job, MoveAct(job, s))
  {
    var r := s.epoch;
    if r > 0 { HalfFlip(r - 1); }
    assert Holds(job, s.inBuf[Half(r)], r, s.dm.pc.e);
  }

  lemma LoadInv<E>(job: Job<E>, s: State<E>, of0: seq<E>)
    requires Inv(job, s, of0) && s.dm.pc.Loading? && MoveEnabled(job, s)
    ensures Inv(job, MoveAct(job, s), of0)
  {
    var s' := MoveAct(job, s);
    assert Buffers(job, s');
    LoadInputs(job, s);
    OutputsSame(job, s, s');
    ResultSame(job, s, s', of0);
    assert CoresOk(job, s');
  }

  /** One element of the result of the tile before is copied out. */
  lemma StoreResult<E>(job: Job<E>, s: State<E>, of0: seq<E>, i: nat, e: nat)
    requires Inv(job, s, of0) && (s.dm.pc == Storing(e) || s.dm.pc == Last(e)) && e < job.outLen && i + 2 == s.epoch
    ensures MoveEnabled(job, s) && ResultOk(job, MoveAct(job, s), of0)
  {
    HalfFlip(s.dm.tile);
    HalfFlip(i);
    assert s.dm.prev == i && i < job.tiles;
    assert s.outBuf[Half(s.epoch)][e] == Output(job, i, e);
    var s' := MoveAct(job, s);
    assert s'.ofmap == s.ofmap[job.dst(i, e) := Output(job, i, e)];
    forall i': nat, e': nat | i' < job.tiles && e' < job.outLen
      ensures s'.ofmap[job.dst(i', e')] == if Stored(s', i', e') then Output(job, i', e') else of0[job.dst(i', e')]
    {
      assert Stored(s', i', e') <==> Stored(s, i', e') || (i' == i && e' == e);
    }
  }

  lemma StoreInv<E>(job: Job<E>, s: State<E>, of0: seq<E>)
    requires Inv(job, s, of0) && (s.dm.pc.Storing? || s.dm.pc.Last?) && MoveEnabled(job, s)
    ensures Inv(job, MoveAct(job, s), of0)
  {
    var s' := MoveAct(job, s);
    assert Buffers(job, s');
    OutputsSame(job, s, s');
    HalfFlip(s.dm.tile);
    assert DmOk(job, s'.dm, s.epoch);
    InputsSame(job, s, s');
    if s.dm.pc.e < job.outLen {
      StoreResult(job, s, of0, s.epoch - 2, s.dm.pc.e);
    } else {
      ResultSame(job, s, s', of0);
    }
    assert CoresOk(job, s');
  }

  lemma ReadCore<E>(job: Job<E>, s: State<E>, j: nat)
    requires Legal(job) && Buffers(job, s) && InputsOk(job, s) && ComputeEnabled(job, s, j) && s.cores[j].pc.Reading?
    requires CoreOk(job, s.cores[j], j, s.epoch)
    ensures CoreOk(job, ComputeAct(job, s, j).cores[j], j, s.epoch)
  {
    var c := s.cores[j];
    var e, k := job.work(j, c.pc.q), c.pc.k;
    var x := job.needs(e)[k];
    assert Holds(job, s.inBuf[Half(s.epoch - 1)], s.epoch - 1, job.inLen);
    assert s.inBuf[c.readBuf][x] == job.ifmap[job.src(c.tile, x)];
  }

  lemma OtherCores<E>(job: Job<E>, s: State<E>, s': State<E>, j: nat)
    requires Legal(job) && |s.cores| == |s'.cores| == job.cores && j < job.cores && s'.epoch == s.epoch && CoresOk(job, s)
    requires CoreOk(job, s'.cores[j], j, s.epoch) && forall d: nat :: d < job.cores && d != j ==> s'.cores[d] == s.cores[d]
    ensures CoresOk(job, s')
  {}

  lemma ReadInv<E>(job: Job<E>, s: State<E>, of0: seq<E>, j: nat)
    requires Inv(job, s, of0) && ComputeEnabled(job, s, j) && s.cores[j].pc.Reading?
    ensures Inv(job, ComputeAct(job, s, j), of0)
  {
    var s' := ComputeAct(job, s, j);
    assert Buffers(job, s');
    ReadCore(job, s, j);
    OtherCores(job, s, s', j);
    InputsSame(job, s, s');
    ResultSame(job, s, s', of0);
    OutputsKept(job, s, s');
  }

  lemma OutputsKept<E>(job: Job<E>, s: State<E>, s': State<E>)
    requires Legal(job) && Buffers(job, s) && Buffers(job, s') && OutputsOk(job, s)
    requires s'.outBuf == s.outBuf && s'.epoch == s.epoch
    requires forall d: nat :: d < job.cores ==> Written(job, s'.cores[d]) == Written(job, s.cores[d])
    ensures OutputsOk(job, s')
  {}

  lemma WriteOutputs<E>(job: Job<E>, s: State<E>, j: nat)
    requires Legal(job) && Buffers(job, s) && OutputsOk(job, s) && ComputeEnabled(job, s, j) && s.cores[j].pc.Writing?
    requires CoreOk(job, s.cores[j], j, s.epoch)
    ensures Buffers(job, ComputeAct(job, s, j)) && OutputsOk(job, ComputeAct(job, s, j))
  {
    var c, s', r := s.cores[j], ComputeAct(job, s, j), s.epoch;
    var q, h := c.pc.q, Half(r - 1);
    HalfFlip(r - 1);
    var e := job.work(j, q);
    var now := s.outBuf[h][e := Output(job, r - 1, e)];
    assert s'.outBuf == s.outBuf[h := now];
    assert Written(job, s'.cores[j]) == q + 1;
    forall d: nat, p: nat | d < job.cores && p < job.quota && p < Written(job, s'.cores[d])
      ensures now[job.work(d, p)] == Output(job, r - 1, job.work(d, p))
    {
      if d != j || p != q {
        OneMore(job, s, j, q, d, p);
      }
    }
    assert forall x: nat :: x < job.outLen ==> s'.outBuf[Half(r)][x] == s.outBuf[Half(r)][x];
  }

  /** The outputs written before core j's turn q stay. */
  lemma OneMore<E>(job: Job<E>, s: State<E>, j: nat, q: nat, d: nat, p: nat)
    requires Legal(job) && Buffers(job, s) && OutputsOk(job, s) && 1 <= s.epoch <= job.tiles && j < job.cores && q < job.quota
    requires d < job.cores && p < job.quota && p < Written(job, s.cores[d]) && (d != j || p != q)
    ensures job.work(d, p) != job.work(j, q)
    ensures s.outBuf[Half(s.epoch - 1)][job.work(d, p)] == Output(job, s.epoch - 1, job.work(d, p))
  {}

  lemma WriteInv<E>(job: Job<E>, s: State<E>, of0: seq<E>, j: nat)
    requires Inv(job, s, of0) && ComputeEnabled(job, s, j) && s.cores[j].pc.Writing?
    ensures Inv(job, ComputeAct(job, s, j), of0)
  {
    var s' := ComputeAct(job, s, j);
    WriteOutputs(job, s, j);
    HalfFlip(s.cores[j].tile);
    assert CoreOk(job, s'.cores[j], j, s.epoch);
    OtherCores(job, s, s', j);
    InputsSame(job, s, s');
    ResultSame(job, s, s', of0);
  }

  /** When everybody has arrived, the tile of this epoch is complete in its half of the output buffer. */
  lemma TileComplete<E>(job: Job<E>, s: State<E>, e: nat)
    requires Legal(job) && Buffers(job, s) && OutputsOk(job, s) && CoresOk(job, s) && ReleaseEnabled(s) && 1 <= s.epoch <= job.tiles && e < job.outLen
    ensures s.outBuf[Half(s.epoch - 1)][e] == Output(job, s.epoch - 1, e)
  {
    assert Made(job, e);
    var j: nat, q: nat :| j < job.cores && q < job.quota && job.work(j, q) == e;
    assert CoreOk(job, s.cores[j], j, s.epoch);
    assert q < Written(job, s.cores[j]);
  }

  lemma ReleaseOutputs<E>(job: Job<E>, s: State<E>)
    requires Legal(job) && Buffers(job, s) && OutputsOk(job, s) && CoresOk(job, s) && ReleaseEnabled(s) && s.epoch <= job.tiles
    ensures Buffers(job, ReleaseAct(job, s)) && OutputsOk(job, ReleaseAct(job, s))
  {
    var r, s' := s.epoch, ReleaseAct(job, s);
    assert forall j: nat :: j < job.cores ==> CoreOk(job, s.cores[j], j, r) && (r < job.tiles ==> Written(job, s'.cores[j]) == 0);
    if r > 0 {
      HalfFlip(r - 1);
      var done := s'.outBuf[Half(r + 1)];
      forall e: nat | e < job.outLen ensures done[e] == Output(job, r - 1, e) {
        TileComplete(job, s, e);
      }
    }
  }

  lemma ReleaseInv<E>(job: Job<E>, s: State<E>, of0: seq<E>)
    requires Inv(job, s, of0) && ReleaseEnabled(s)
    ensures Inv(job, ReleaseAct(job, s), of0)
  {
    var s' := ReleaseAct(job, s);
    ReleaseOutputs(job, s);
    forall j: nat | j < job.cores ensures CoreOk(job, s'.cores[j], j, s'.epoch) {
      assert CoreOk(job, s.cores[j], j, s.epoch);
    }
    assert InputsOk(job, s');
    ResultSame(job, s, s', of0);
  }

  lemma ActInv<E>(job: Job<E>, s: State<E>, of0: seq<E>, a: Act)
    requires Inv(job, s, of0) && Enabled(job, s, a)
    ensures Inv(job, Apply(job, s, a), of0)
  {
    match a
    case Move => if s.dm.pc.Loading? { LoadInv(job, s, of0); } else { StoreInv(job, s, of0); }
    case Compute(j) => if s.cores[j].pc.Reading? { ReadInv(job, s, of0, j); } else { WriteInv(job, s, of0, j); }
    case Release => ReleaseInv(job, s, of0);
  }

  lemma {:induction false} BehaviourInv<E>(job: Job<E>, trace: seq<State<E>>, acts: seq<Act>, t: nat)
    requires Legal(job) && Behaviour(job, trace, acts) && t < |trace| && Placed(job, |trace[0].ofmap|)
    ensures Inv(job, trace[t], trace[0].ofmap)
  {
    if t == 0 {
      InitInv(job, trace[0]);
    } else {
      BehaviourInv(job, trace, acts, t - 1);
      ActInv(job, trace[t - 1], trace[0].ofmap, acts[t - 1]);
    }
  }

  // ----- what the layer promises

  /** Between barriers no half is touched by two sides: while a compute core is at work, the data mover loads into the
      input half the core does not read and stores from the output half the core does not write; and no two cores
      write the same output. */
  lemma NoRaces<E>(job: Job<E>, trace: seq<State<E>>, acts: seq<Act>, t: nat, j: nat)
    requires Legal(job) && Behaviour(job, trace, acts) && t < |trace| && Placed(job, |trace[0].ofmap|) && j < |trace[t].cores|
    requires trace[t].cores[j].pc.Reading? || trace[t].cores[j].pc.Writing?
    ensures trace[t].dm.pc.Loading? ==> trace[t].dm.writeBuf != trace[t].cores[j].readBuf
    ensures trace[t].dm.pc.Storing? ==> Flip(trace[t].dm.readBuf) != trace[t].cores[j].writeBuf
    ensures !trace[t].dm.pc.Last?
    ensures forall d :: 0 <= d < |trace[t].cores| && d != j && (trace[t].cores[d].pc.Reading? || trace[t].cores[d].pc.Writing?) ==>
              job.work(d, trace[t].cores[d].pc.q) != job.work(j, trace[t].cores[j].pc.q)
  {
    BehaviourInv(job, trace, acts, t);
    var s := trace[t];
    assert CoreOk(job, s.cores[j], j, s.epoch);
    HalfFlip(s.cores[j].tile);
    forall d | 0 <= d < |s.cores| && d != j && (s.cores[d].pc.Reading? || s.cores[d].pc.Writing?)
      ensures job.work(d, s.cores[d].pc.q) != job.work(j, s.cores[j].pc.q)
    {
      assert CoreOk(job, s.cores[d], d, s.epoch);
    }
  }

  /** In every interleaving: when the data mover is through, the output feature map is the sequential kernel of every tile,
      and nothing else in it has changed. */
  lemma SequentialResult<E>(job: Job<E>, trace: seq<State<E>>, acts: seq<Act>, t: nat)
    requires Legal(job) && Behaviour(job, trace, acts) && t < |trace| && Placed(job, |trace[0].ofmap|) && trace[t].dm.pc == DmFinished
    ensures |trace[t].ofmap| == |trace[0].ofmap|
    ensures forall i: nat, e: nat :: i < job.tiles && e < job.outLen ==> trace[t].ofmap[job.dst(i, e)] == Output(job, i, e)
    ensures forall w: nat :: w < |trace[0].ofmap| && NotPlaced(job, w) ==> trace[t].ofmap[w] == trace[0].ofmap[w]
  {
    BehaviourInv(job, trace, acts, t);
    assert forall i: nat, e: nat :: Stored(trace[t], i, e);
  }

  /** Nobody is stuck before the end: some core can act or the barrier can open. */
  lemma Progress<E>(job: Job<E>, s: State<E>, of0: seq<E>)
    requires Inv(job, s, of0) && s.dm.pc != DmFinished
    ensures exists a: Act :: Enabled(job, s, a)
  {
    HalfFlip(s.dm.tile);
    if s.dm.pc != DmArrived {
      assert Enabled(job, s, Move);
    } else if j: nat :| j < job.cores && s.cores[j].pc != Arrived {
      assert CoreOk(job, s.cores[j], j, s.epoch);
      HalfFlip(s.cores[j].tile);
      assert Enabled(job, s, Compute(j));
    } else {
      assert Enabled(job, s, Release);
    }
  }

  // ----- the end is reached

  /** Acts of the data mover before it waits at the barrier, or has finished. */
  function DmLeft<E>(job: Job<E>, pc: DmPc): nat {
    match pc
    case Loading(e) => if e <= job.inLen then job.inLen - e + 1 else 0
    case Storing(e) => (if e <= job.outLen then job.outLen - e + 1 else 0) + job.inLen + 1
    case Last(e) => if e <= job.outLen then job.outLen - e + 1 else 0
    case _ => 0
  }

  /** Acts of core j for its turns from q on: the reads of each output, and its write. */
  function Turns<E>(job: Job<E>, j: nat, q: nat): nat
    decreases job.quota - q
  {
    if q >= job.quota then 0 else |job.needs(job.work(j, q))| + 1 + Turns(job, j, q + 1)
  }

  function CoreLeft<E>(job: Job<E>, c: Core<E>, j: nat): nat {
    match c.pc
    case Reading(q, k, _) =>
      var n := |job.needs(job.work(j, q))|;
      (if k < n then n - k else 0) + 1 + Turns(job, j, q + 1)
    case Writing(q, _) => 1 + Turns(job, j, q + 1)
    case _ => 0
  }

  /** The acts of the first n cores in this epoch, and in a whole one. */
  function Busy<E>(job: Job<E>, cores: seq<Core<E>>, n: nat): nat
    requires n <= |cores|
  {
    if n == 0 then 0 else Busy(job, cores, n - 1) + CoreLeft(job, cores[n - 1], n - 1)
  }

  function Full<E>(job: Job<E>, n: nat): nat { if n == 0 then 0 else Full(job, n - 1) + Turns(job, n - 1, 0) }

  /** The longest epoch, with the opening of the barrier that starts it. */
  function Epoch<E>(job: Job<E>): nat { job.outLen + job.inLen + 2 + Full(job, job.cores) + 1 }

  function Epochs(n: nat, work: nat): nat { if n == 0 then 0 else Epochs(n - 1, work) + work }

  function Rank<E>(job: Job<E>, s: State<E>): nat {
    (if s.epoch <= job.tiles then Epochs(job.tiles + 1 - s.epoch, Epoch(job)) else 0) + DmLeft(job, s.dm.pc) + Busy(job, s.cores, |s.cores|)
  }

  lemma {:induction false} BusyUpdate<E>(job: Job<E>, cores: seq<Core<E>>, j: nat, c: Core<E>, n: nat)
    requires j < |cores| && n <= |cores|
    ensures Busy(job, cores[j := c], n) ==
              Busy(job, cores, n) + if j < n then CoreLeft(job, c, j) - CoreLeft(job, cores[j], j) else 0
  {
    if n == 0 {
    } else {
      BusyUpdate(job, cores, j, c, n - 1);
    }
  }

  lemma {:induction false} BusyBound<E>(job: Job<E>, cores: seq<Core<E>>, n: nat)
    requires n <= |cores| && forall j: nat :: j < n ==> CoreLeft(job, cores[j], j) <= Turns(job, j, 0)
    ensures Busy(job, cores, n) <= Full(job, n)
  {
    if n == 0 {
    } else {
      BusyBound(job, cores, n - 1);
    }
  }

  lemma CoreFalls<E>(job: Job<E>, s: State<E>, j: nat)
    requires Buffers(job, s) && ComputeEnabled(job, s, j)
    ensures CoreLeft(job, ComputeAct(job, s, j).cores[j], j) < CoreLeft(job, s.cores[j], j)
  {}

  lemma ComputeFalls<E>(job: Job<E>, s: State<E>, j: nat)
    requires Buffers(job, s) && ComputeEnabled(job, s, j)
    ensures Rank(job, ComputeAct(job, s, j)) < Rank(job, s)
  {
    var s' := ComputeAct(job, s, j);
    CoreFalls(job, s, j);
    BusyUpdate(job, s.cores, j, s'.cores[j], |s.cores|);
    assert s'.cores == s.cores[j := s'.cores[j]];
  }

  lemma MoveFalls<E>(job: Job<E>, s: State<E>)
    requires Buffers(job, s) && MoveEnabled(job, s) && DmOk(job, s.dm, s.epoch)
    ensures Rank(job, MoveAct(job, s)) < Rank(job, s)
  {}

  lemma ReleaseFalls<E>(job: Job<E>, s: State<E>)
    requires Buffers(job, s) && ReleaseEnabled(s) && DmOk(job, s.dm, s.epoch) && job.quota > 0
    ensures Rank(job, ReleaseAct(job, s)) < Rank(job, s)
  {
    var s' := ReleaseAct(job, s);
    ReleasedBusy(job, s);
    assert DmLeft(job, s'.dm.pc) <= job.outLen + job.inLen + 2;
    assert Epochs(job.tiles + 1 - s.epoch, Epoch(job)) == Epochs(job.tiles - s.epoch, Epoch(job)) + Epoch(job);
  }

  /** Every core has at most a whole tile to do. */
  lemma ReleasedBusy<E>(job: Job<E>, s: State<E>)
    requires Buffers(job, s) && ReleaseEnabled(s) && job.quota > 0
    ensures var cores := ReleaseAct(job, s).cores; Busy(job, cores, |cores|) <= Full(job, job.cores)
  {
    var cores := ReleaseAct(job, s).cores;
    BusyBound(job, cores, |cores|);
  }

  lemma RankFalls<E>(job: Job<E>, s: State<E>, of0: seq<E>, a: Act)
    requires Inv(job, s, of0) && Enabled(job, s, a)
    ensures Rank(job, Apply(job, s, a)) < Rank(job, s)
  {
    match a
    case Move => MoveFalls(job, s);
    case Compute(j) => ComputeFalls(job, s, j);
    case Release => ReleaseFalls(job, s);
  }

  /** No run is longer than tiles + 2 epochs, and one that cannot be continued has reached the end on every core: so every
      run, however scheduled, ends with the sequential result. */
  lemma {:induction false} RunsEnd<E>(job: Job<E>, trace: seq<State<E>>, acts: seq<Act>, t: nat)
    requires Legal(job) && Behaviour(job, trace, acts) && t <= |acts| && Placed(job, |trace[0].ofmap|)
    ensures |acts| - t <= Rank(job, trace[t])
    ensures (forall a: Act :: !Enabled(job, trace[|acts|], a)) ==>
              trace[|acts|].dm.pc == DmFinished && forall c :: c in trace[|acts|].cores ==> c.pc == Finished
    decreases |acts| - t
  {
    BehaviourInv(job, trace, acts, t);
    var s, of0 := trace[t], trace[0].ofmap;
    if t < |acts| {
      RankFalls(job, s, of0, acts[t]);
      RunsEnd(job, trace, acts, t + 1);
    } else if forall a: Act :: !Enabled(job, s, a) {
      if s.dm.pc != DmFinished { Progress(job, s, of0); }
      forall j: nat | j < |s.cores| ensures s.cores[j].pc == Finished { assert CoreOk(job, s.cores[j], j, s.epoch); }
    }
  }
}
