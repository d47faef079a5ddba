/** The tiled multiply on all clusters as it runs: every cluster takes its tiles one after the other, and the clusters'
    transfers from and to C interleave freely. One act per element transferred; what a cluster does to a tile in its own memory
    is one act, since nobody else sees it. */
module ClusterRun {
  import opened MatMul
  import opened TiledGemm
  import opened Arithmetic

  /** Where a cluster is with its tile: loading it, about to compute, or storing it. */
  datatype Pc = Load(r: nat, q: nat) | Compute | Store(r: nat, q: nat)

  /** A cluster at tile (mt, nt), with the C tile in its memory. */
  datatype Cluster<T> = Cluster(mt: nat, nt: nat, pc: Pc, local: (nat, nat) -> T)

  /** `stores` is history: the elements of C stored so far. */
  datatype State<T> = State(c: seq<T>, clusters: seq<Cluster<T>>, stores: seq<nat>)

  /** The multiply: the plan, how many rows of tiles a cluster has, the operands and the scaling. */
  datatype Job<!T> = Job(ar: Arith<T>, p: Plan, per: nat, a: seq<T>, b: seq<T>, beta: T)

  ghost predicate Legal<T>(job: Job<T>, size: nat) {
    var legal := Reads(job.p, |job.a|, |job.b|) && Writes(job.p, size);
    legal
  }

  predicate InTile(p: Plan, r: nat, q: nat) { r < p.fm && q < p.fn }

  /** The element after (r, q), row by row; the tile after (mt, nt). */
  function NextElement(p: Plan, r: nat, q: nat): (nat, nat) { if q + 1 < p.fn then (r, q + 1) else (r + 1, 0) }
  function NextTile(p: Plan, mt: nat, nt: nat): (nat, nat) { if nt + 1 < p.nTiles then (mt, nt + 1) else (mt + 1, 0) }

  /** What the k loop makes of a tile: in the cores' rows all products are accumulated on top of the scaled entry. */
  ghost function Made<T>(job: Job<T>, mt: nat, nt: nat, i: nat, j: nat, was: T): T
    requires Reads(job.p, |job.a|, |job.b|) && IsEntry(job.p, mt, i, nt, j)
  {
    if i < job.p.rows then Acc(job.ar, job.a, job.b, job.p, mt, i, nt, j, Start(job.ar, Times(job.beta), was), job.p.kTiles * job.p.fk) else was
  }

  ghost function MadeTile<T>(job: Job<T>, mt: nat, nt: nat, local: (nat, nat) -> T): (nat, nat) -> T
    requires Reads(job.p, |job.a|, |job.b|)
  {
    (i: nat, j: nat) => if IsEntry(job.p, mt, i, nt, j) then Made(job, mt, nt, i, j, local(i, j)) else local(i, j)
  }

  /** That is what the k loop of TiledGemm leaves in a cluster's memory, whose cores may interleave (module TileRun). */
  lemma MadeByKLoop<T>(job: Job<T>, mem: seq<T>, c: seq<T>, mt: nat, nt: nat, i: nat, j: nat)
    requires Legal(job, |c|) && c != [] && Local(job.p, |mem|) && IsEntry(job.p, mt, i, nt, j)
    requires Partial(job.ar, mem, job.a, job.b, job.p, mt, nt, Scaled(job.ar, job.beta, c, job.p, mt, nt), job.p.kTiles * job.p.fk)
    requires Spare(mem, c, job.p, mt, nt)
    ensures mem[job.p.lc(i, j)] == Made(job, mt, nt, i, j, c[job.p.gc(mt, i, nt, j)])
  {}

  predicate Busy<T>(job: Job<T>, id: nat, k: Cluster<T>) {
    && id * job.per <= k.mt < id * job.per + job.per && k.nt < job.p.nTiles && k.mt < job.p.mTiles
  }

  ghost predicate Enabled<T>(job: Job<T>, s: State<T>, id: nat) {
    Legal(job, |s.c|) && id < |s.clusters| && Busy(job, id, s.clusters[id])
  }

  /** One transfer of cluster id, or its computation. */
  ghost function Apply<T>(job: Job<T>, s: State<T>, id: nat): State<T>
    requires Enabled(job, s, id)
  {
    var p, k := job.p, s.clusters[id];
    match k.pc
    case Load(r, q) =>
      if InTile(p, r, q) then
        assert IsEntry(p, k.mt, r, k.nt, q);
        var x, local := s.c[p.gc(k.mt, r, k.nt, q)], k.local;
        s.(clusters := s.clusters[id := k.(pc := Load(NextElement(p, r, q).0, NextElement(p, r, q).1),
                                           local := (i: nat, j: nat) => if i == r && j == q then x else local(i, j))])
      else s.(clusters := s.clusters[id := k.(pc := Compute)])
    case Compute => s.(clusters := s.clusters[id := k.(pc := Store(0, 0), local := MadeTile(job, k.mt, k.nt, k.local))])
    case Store(r, q) =>
      if InTile(p, r, q) then
        assert IsEntry(p, k.mt, r, k.nt, q);
        var w := p.gc(k.mt, r, k.nt, q);
        State(s.c[w := k.local(r, q)], s.clusters[id := k.(pc := Store(NextElement(p, r, q).0, NextElement(p, r, q).1))], s.stores + [w])
      else
        var (mt, nt) := NextTile(p, k.mt, k.nt);
        s.(clusters := s.clusters[id := k.(mt := mt, nt := nt, pc := Load(0, 0))])
  }

  ghost predicate Init<T>(job: Job<T>, s: State<T>) {
    && Legal(job, |s.c|) && |s.clusters| * job.per == job.p.mTiles && s.stores == []
    && forall id :: 0 <= id < |s.clusters| ==>
         && s.clusters[id].mt == (if job.p.nTiles == 0 then id * job.per + job.per else id * job.per)
         && s.clusters[id].nt == 0 && s.clusters[id].pc == Load(0, 0)
  }

  ghost predicate Behaviour<T>(job: Job<T>, trace: seq<State<T>>, acts: seq<nat>) {
    && |trace| == |acts| + 1 && Init(job, trace[0])
    && forall t :: 0 <= t < |acts| ==> Enabled(job, trace[t], acts[t]) && trace[t + 1] == Apply(job, trace[t], acts[t])
  }

  // ----- the invariant

  /** Cluster k has stored element (i, j) of tile (mt, nt). */
  predicate Past<T>(k: Cluster<T>, mt: nat, i: nat, nt: nat, j: nat) {
    Before(mt, nt, k.mt, k.nt) || (mt == k.mt && nt == k.nt && k.pc.Store? && Before(i, j, k.pc.r, k.pc.q))
  }

  /** Cluster id has the entry among its tiles, and has stored it. */
  ghost predicate StoredBy<T>(job: Job<T>, id: nat, k: Cluster<T>, mt: nat, i: nat, nt: nat, j: nat) {
    IsEntry(job.p, mt, i, nt, j) && Owns(id, job.per, mt) && Past(k, mt, i, nt, j)
  }

  /** Element (r, q) of the tile in the cluster's memory, if it has been loaded. */
  ghost predicate ElementOk<T>(job: Job<T>, c0: seq<T>, k: Cluster<T>, r: nat, q: nat)
    requires Legal(job, |c0|) && IsEntry(job.p, k.mt, r, k.nt, q)
  {
    match k.pc
    case Load(i, j) => Before(r, q, i, j) ==> k.local(r, q) == c0[job.p.gc(k.mt, r, k.nt, q)]
    case Compute => k.local(r, q) == c0[job.p.gc(k.mt, r, k.nt, q)]
    case Store(_, _) => k.local(r, q) == Made(job, k.mt, k.nt, r, q, c0[job.p.gc(k.mt, r, k.nt, q)])
  }

  ghost predicate ClusterOk<T>(job: Job<T>, c0: seq<T>, id: nat, k: Cluster<T>)
    requires Legal(job, |c0|)
  {
    var first, last := id * job.per, id * job.per + job.per;
    && first <= k.mt <= last
    && (k.mt == last ==> k.nt == 0 && k.pc == Load(0, 0))
    && (k.mt < last ==> Busy(job, id, k) && (k.pc.Compute? || AtElement(job.p, k.pc.r, k.pc.q)) && forall r: nat, q: nat :: InTile(job.p, r, q) ==> ElementOk(job, c0, k, r, q))
  }

  /** The entry as it should be once it is stored. */
  ghost function Result<T>(job: Job<T>, c0: seq<T>, mt: nat, i: nat, nt: nat, j: nat): T
    requires Legal(job, |c0|) && IsEntry(job.p, mt, i, nt, j)
  {
    Made(job, mt, nt, i, j, c0[job.p.gc(mt, i, nt, j)])
  }

  /** The entries of cluster id's tiles hold their result if stored, and their old contents otherwise. */
  ghost predicate BandOk<T>(job: Job<T>, c0: seq<T>, c: seq<T>, id: nat, k: Cluster<T>)
    requires Legal(job, |c0|) && |c| == |c0|
  {
    forall mt: nat, i: nat, nt: nat, j: nat :: IsEntry(job.p, mt, i, nt, j) && Owns(id, job.per, mt) ==>
      c[job.p.gc(mt, i, nt, j)] == if Past(k, mt, i, nt, j) then Result(job, c0, mt, i, nt, j) else c0[job.p.gc(mt, i, nt, j)]
  }

  /** Cluster id has stored w. */
  ghost predicate Stored<T>(job: Job<T>, id: nat, k: Cluster<T>, w: nat) {
    exists mt: nat, i: nat, nt: nat, j: nat :: StoredBy(job, id, k, mt, i, nt, j) && job.p.gc(mt, i, nt, j) == w
  }

  ghost predicate StoresOk<T>(job: Job<T>, s: State<T>) {
    && (forall x, y :: 0 <= x < y < |s.stores| ==> s.stores[x] != s.stores[y])
    && forall w: nat :: w in s.stores <==> exists id: nat :: id < |s.clusters| && Stored(job, id, s.clusters[id], w)
  }

  ghost predicate Inv<T>(job: Job<T>, c0: seq<T>, s: State<T>) {
    var inv :=
      && Legal(job, |c0|) && |s.c| == |c0| && |s.clusters| * job.per == job.p.mTiles
      && (forall id: nat :: id < |s.clusters| ==> ClusterOk(job, c0, id, s.clusters[id]) && BandOk(job, c0, s.c, id, s.clusters[id]))
      && (forall w: nat :: w < |c0| && NoEntry(job.p, w) ==> s.c[w] == c0[w])
      && StoresOk(job, s);
    inv
  }

  lemma InitInv<T>(job: Job<T>, s: State<T>)
    requires Init(job, s)
    ensures Inv(job, s.c, s)
  {
    forall id: nat | id < |s.clusters| ensures ClusterOk(job, s.c, id, s.clusters[id]) && BandOk(job, s.c, s.c, id, s.clusters[id]) {
      GroupFits(id, |s.clusters|, job.per);
    }
  }

  // ----- one act

  /** Where a cluster stands within its tile after one more element. */
  lemma NextIs(p: Plan, r: nat, q: nat, i: nat, j: nat)
    requires InTile(p, r, q) && InTile(p, i, j)
    ensures Before(i, j, NextElement(p, r, q).0, NextElement(p, r, q).1) <==> Before(i, j, r, q) || (i == r && j == q)
  {}

  /** When (r, q) is beyond the tile all its elements are before it, provided rows are run through in order. */
  predicate AtElement(p: Plan, r: nat, q: nat) { r <= p.fm && (q < p.fn || q == 0) && (r == p.fm ==> q == 0) }

  lemma NextAt(p: Plan, r: nat, q: nat)
    requires AtElement(p, r, q) && InTile(p, r, q)
    ensures AtElement(p, NextElement(p, r, q).0, NextElement(p, r, q).1)
  {}

  lemma BeyondTile(p: Plan, r: nat, q: nat, i: nat, j: nat)
    requires AtElement(p, r, q) && !InTile(p, r, q) && InTile(p, i, j)
    ensures Before(i, j, r, q)
  {}

  /** An act that stores nothing and passes nothing, given that its cluster stays in order. */
  lemma QuietInv<T>(job: Job<T>, c0: seq<T>, s: State<T>, s': State<T>, id: nat)
    requires Inv(job, c0, s) && id < |s.clusters| == |s'.clusters| && s' == s.(clusters := s'.clusters)
    requires forall d: nat :: d < |s.clusters| && d != id ==> s'.clusters[d] == s.clusters[d]
    requires ClusterOk(job, c0, id, s'.clusters[id]) && SamePast(job, id, s.clusters[id], s'.clusters[id])
    ensures Inv(job, c0, s')
  {
    forall d: nat | d < |s.clusters| ensures ClusterOk(job, c0, d, s'.clusters[d]) && BandOk(job, c0, s'.c, d, s'.clusters[d]) {
      assert ClusterOk(job, c0, d, s.clusters[d]) && BandOk(job, c0, s.c, d, s.clusters[d]);
    }
    forall w: nat ensures w in s'.stores <==> exists d: nat :: d < |s'.clusters| && Stored(job, d, s'.clusters[d], w) {
      forall d: nat | d < |s.clusters| ensures Stored(job, d, s'.clusters[d], w) <==> Stored(job, d, s.clusters[d], w) {
        SameStored(job, d, s.clusters[d], s'.clusters[d], w);
      }
    }
  }

  ghost predicate SamePast<T>(job: Job<T>, id: nat, k: Cluster<T>, k': Cluster<T>) {
    forall mt: nat, i: nat, nt: nat, j: nat :: IsEntry(job.p, mt, i, nt, j) && Owns(id, job.per, mt) ==>
      (Past(k', mt, i, nt, j) <==> Past(k, mt, i, nt, j))
  }

  lemma SameStored<T>(job: Job<T>, id: nat, k: Cluster<T>, k': Cluster<T>, w: nat)
    requires SamePast(job, id, k, k')
    ensures Stored(job, id, k', w) <==> Stored(job, id, k, w)
  {
    if Stored(job, id, k, w) {
      var mt: nat, i: nat, nt: nat, j: nat :| StoredBy(job, id, k, mt, i, nt, j) && job.p.gc(mt, i, nt, j) == w;
      assert StoredBy(job, id, k', mt, i, nt, j);
    }
    if Stored(job, id, k', w) {
      var mt: nat, i: nat, nt: nat, j: nat :| StoredBy(job, id, k', mt, i, nt, j) && job.p.gc(mt, i, nt, j) == w;
      assert StoredBy(job, id, k, mt, i, nt, j);
    }
  }

  /** The cluster after a load, the end of its loads, and its computation. */
  lemma LoadOk<T>(job: Job<T>, c0: seq<T>, s: State<T>, id: nat)
    requires Inv(job, c0, s) && Enabled(job, s, id) && !s.clusters[id].pc.Store?
    ensures ClusterOk(job, c0, id, Apply(job, s, id).clusters[id])
  {
    var p, k := job.p, s.clusters[id];
    var k' := Apply(job, s, id).clusters[id];
    assert ClusterOk(job, c0, id, k) && BandOk(job, c0, s.c, id, k);
    forall i: nat, j: nat | InTile(p, i, j) ensures IsEntry(p, k.mt, i, k.nt, j) && ElementOk(job, c0, k', i, j) {
      assert IsEntry(p, k.mt, i, k.nt, j) && ElementOk(job, c0, k, i, j);
      if k.pc.Load? {
        if InTile(p, k.pc.r, k.pc.q) {
          NextIs(p, k.pc.r, k.pc.q, i, j);
          LoadedIs(job, c0, s, id);
        } else {
          BeyondTile(p, k.pc.r, k.pc.q, i, j);
        }
      }
    }
    if k.pc.Load? && InTile(p, k.pc.r, k.pc.q) { NextAt(p, k.pc.r, k.pc.q); }
  }

  /** What is loaded is the initial element. */
  lemma LoadedIs<T>(job: Job<T>, c0: seq<T>, s: State<T>, id: nat)
    requires Inv(job, c0, s) && Enabled(job, s, id) && s.clusters[id].pc.Load? && InTile(job.p, s.clusters[id].pc.r, s.clusters[id].pc.q)
    ensures var k := s.clusters[id]; var w := job.p.gc(k.mt, k.pc.r, k.nt, k.pc.q); w < |c0| && s.c[w] == c0[w]
  {
    var k := s.clusters[id];
    assert BandOk(job, c0, s.c, id, k) && IsEntry(job.p, k.mt, k.pc.r, k.nt, k.pc.q) && !Past(k, k.mt, k.pc.r, k.nt, k.pc.q);
  }

  /** The cluster after the last store of a tile. */
  lemma TurnOk<T>(job: Job<T>, c0: seq<T>, s: State<T>, id: nat)
    requires Inv(job, c0, s) && Enabled(job, s, id) && s.clusters[id].pc.Store? && !InTile(job.p, s.clusters[id].pc.r, s.clusters[id].pc.q)
    ensures ClusterOk(job, c0, id, Apply(job, s, id).clusters[id])
    ensures SamePast(job, id, s.clusters[id], Apply(job, s, id).clusters[id])
  {
    var p, k := job.p, s.clusters[id];
    var k' := Apply(job, s, id).clusters[id];
    assert ClusterOk(job, c0, id, k);
    GroupFits(id, |s.clusters|, job.per);
    forall mt: nat, i: nat, nt: nat, j: nat | IsEntry(p, mt, i, nt, j) && Owns(id, job.per, mt)
      ensures Past(k', mt, i, nt, j) <==> Past(k, mt, i, nt, j)
    {
      if mt == k.mt && nt == k.nt { BeyondTile(p, k.pc.r, k.pc.q, i, j); }
    }
  }

  /** Elements of different clusters are different. */
  lemma OwnElement<T>(job: Job<T>, size: nat, id: nat, mt: nat, i: nat, nt: nat, j: nat, id': nat, mt': nat, i': nat, nt': nat, j': nat)
    requires Legal(job, size) && IsEntry(job.p, mt, i, nt, j) && IsEntry(job.p, mt', i', nt', j')
    requires Owns(id, job.per, mt) && Owns(id', job.per, mt')
    ensures job.p.gc(mt, i, nt, j) < size
    ensures job.p.gc(mt, i, nt, j) == job.p.gc(mt', i', nt', j') ==> id == id' && mt == mt' && i == i' && nt == nt' && j == j'
  {
    if id != id' { OwnsOne(id, id', job.per, mt); }
  }

  ghost predicate Storing<T>(job: Job<T>, s: State<T>, id: nat) {
    Enabled(job, s, id) && s.clusters[id].pc.Store? && InTile(job.p, s.clusters[id].pc.r, s.clusters[id].pc.q)
  }

  /** What a store passes: its own element, and nothing else. */
  lemma StorePast<T>(job: Job<T>, s: State<T>, id: nat, mt: nat, i: nat, nt: nat, j: nat)
    requires Storing(job, s, id) && IsEntry(job.p, mt, i, nt, j)
    ensures var k, k' := s.clusters[id], Apply(job, s, id).clusters[id];
            Past(k', mt, i, nt, j) <==> Past(k, mt, i, nt, j) || (mt == k.mt && i == k.pc.r && nt == k.nt && j == k.pc.q)
  {
    var k := s.clusters[id];
    NextIs(job.p, k.pc.r, k.pc.q, i, j);
  }

  lemma StoreBand<T>(job: Job<T>, c0: seq<T>, s: State<T>, id: nat, d: nat)
    requires Inv(job, c0, s) && Storing(job, s, id) && d < |s.clusters|
    ensures var s' := Apply(job, s, id); |s'.c| == |c0| && |s'.clusters| == |s.clusters| && BandOk(job, c0, s'.c, d, s'.clusters[d])
  {
    var p, k, s' := job.p, s.clusters[id], Apply(job, s, id);
    assert ClusterOk(job, c0, id, k) && IsEntry(p, k.mt, k.pc.r, k.nt, k.pc.q) && ElementOk(job, c0, k, k.pc.r, k.pc.q);
    assert BandOk(job, c0, s.c, d, s.clusters[d]);
    forall mt: nat, i: nat, nt: nat, j: nat | IsEntry(p, mt, i, nt, j) && Owns(d, job.per, mt)
      ensures s'.c[p.gc(mt, i, nt, j)] == if Past(s'.clusters[d], mt, i, nt, j) then Result(job, c0, mt, i, nt, j) else c0[p.gc(mt, i, nt, j)]
    {
      OwnElement(job, |c0|, d, mt, i, nt, j, id, k.mt, k.pc.r, k.nt, k.pc.q);
      if d == id { StorePast(job, s, id, mt, i, nt, j); }
    }
  }

  lemma StoreOk<T>(job: Job<T>, c0: seq<T>, s: State<T>, id: nat)
    requires Inv(job, c0, s) && Storing(job, s, id)
    ensures ClusterOk(job, c0, id, Apply(job, s, id).clusters[id])
  {
    var k := s.clusters[id];
    assert ClusterOk(job, c0, id, k);
    NextAt(job.p, k.pc.r, k.pc.q);
    var k' := Apply(job, s, id).clusters[id];
    forall r: nat, q: nat | InTile(job.p, r, q) ensures IsEntry(job.p, k.mt, r, k.nt, q) && ElementOk(job, c0, k', r, q) {
      assert IsEntry(job.p, k.mt, r, k.nt, q) && ElementOk(job, c0, k, r, q);
    }
  }

  /** The element stored is new. */
  lemma StoreNew<T>(job: Job<T>, c0: seq<T>, s: State<T>, id: nat)
    requires Inv(job, c0, s) && Storing(job, s, id)
    ensures var k := s.clusters[id]; job.p.gc(k.mt, k.pc.r, k.nt, k.pc.q) !in s.stores
  {
    var p, k := job.p, s.clusters[id];
    var w := p.gc(k.mt, k.pc.r, k.nt, k.pc.q);
    assert IsEntry(p, k.mt, k.pc.r, k.nt, k.pc.q) && !Past(k, k.mt, k.pc.r, k.nt, k.pc.q);
    forall d: nat | d < |s.clusters| ensures !Stored(job, d, s.clusters[d], w) {
      if Stored(job, d, s.clusters[d], w) {
        var mt: nat, i: nat, nt: nat, j: nat :| StoredBy(job, d, s.clusters[d], mt, i, nt, j) && p.gc(mt, i, nt, j) == w;
        OwnElement(job, |c0|, d, mt, i, nt, j, id, k.mt, k.pc.r, k.nt, k.pc.q);
        assert false;
      }
    }
  }

  lemma StoreStored<T>(job: Job<T>, s: State<T>, id: nat, w: nat)
    requires Storing(job, s, id)
    ensures var k, k' := s.clusters[id], Apply(job, s, id).clusters[id];
            Stored(job, id, k', w) <==> Stored(job, id, k, w) || w == job.p.gc(k.mt, k.pc.r, k.nt, k.pc.q)
  {
    var p, k, k' := job.p, s.clusters[id], Apply(job, s, id).clusters[id];
    assert IsEntry(p, k.mt, k.pc.r, k.nt, k.pc.q);
    if Stored(job, id, k, w) {
      var mt: nat, i: nat, nt: nat, j: nat :| StoredBy(job, id, k, mt, i, nt, j) && p.gc(mt, i, nt, j) == w;
      StorePast(job, s, id, mt, i, nt, j);
      assert StoredBy(job, id, k', mt, i, nt, j);
    }
    if w == p.gc(k.mt, k.pc.r, k.nt, k.pc.q) {
      StorePast(job, s, id, k.mt, k.pc.r, k.nt, k.pc.q);
      assert StoredBy(job, id, k', k.mt, k.pc.r, k.nt, k.pc.q);
    }
    if Stored(job, id, k', w) {
      var mt: nat, i: nat, nt: nat, j: nat :| StoredBy(job, id, k', mt, i, nt, j) && p.gc(mt, i, nt, j) == w;
      StorePast(job, s, id, mt, i, nt, j);
      assert Past(k, mt, i, nt, j) ==> StoredBy(job, id, k, mt, i, nt, j);
    }
  }

  lemma StoreStores<T>(job: Job<T>, c0: seq<T>, s: State<T>, id: nat)
    requires Inv(job, c0, s) && Storing(job, s, id)
    ensures StoresOk(job, Apply(job, s, id))
  {
    var s' := Apply(job, s, id);
    StoreNew(job, c0, s, id);
    forall w: nat ensures w in s'.stores <==> exists d: nat :: d < |s'.clusters| && Stored(job, d, s'.clusters[d], w) {
      StoreStored(job, s, id, w);
      if w in s.stores {
        var d: nat :| d < |s.clusters| && Stored(job, d, s.clusters[d], w);
        assert Stored(job, d, s'.clusters[d], w);
      } else if w in s'.stores {
        assert Stored(job, id, s'.clusters[id], w);
      }
      if d: nat :| d < |s'.clusters| && Stored(job, d, s'.clusters[d], w) {
        assert d != id ==> Stored(job, d, s.clusters[d], w);
      }
    }
  }

  lemma StoreInv<T>(job: Job<T>, c0: seq<T>, s: State<T>, id: nat)
    requires Inv(job, c0, s) && Storing(job, s, id)
    ensures Inv(job, c0, Apply(job, s, id))
  {
    var k, s' := s.clusters[id], Apply(job, s, id);
    StoreOk(job, c0, s, id);
    StoreStores(job, c0, s, id);
    forall d: nat | d < |s.clusters| ensures ClusterOk(job, c0, d, s'.clusters[d]) && BandOk(job, c0, s'.c, d, s'.clusters[d]) {
      assert ClusterOk(job, c0, d, s.clusters[d]);
      StoreBand(job, c0, s, id, d);
    }
    assert IsEntry(job.p, k.mt, k.pc.r, k.nt, k.pc.q);
  }

  lemma ActInv<T>(job: Job<T>, c0: seq<T>, s: State<T>, id: nat)
    requires Inv(job, c0, s) && Enabled(job, s, id)
    ensures Inv(job, c0, Apply(job, s, id))
  {
    if Storing(job, s, id) {
      StoreInv(job, c0, s, id);
    } else if s.clusters[id].pc.Store? {
      TurnOk(job, c0, s, id);
      QuietInv(job, c0, s, Apply(job, s, id), id);
    } else {
      LoadOk(job, c0, s, id);
      QuietInv(job, c0, s, Apply(job, s, id), id);
    }
  }

  lemma {:induction false} BehaviourInv<T>(job: Job<T>, trace: seq<State<T>>, acts: seq<nat>, t: nat)
    requires Behaviour(job, trace, acts) && t < |trace|
    ensures Inv(job, trace[0].c, trace[t])
  {
    if t == 0 {
      InitInv(job, trace[0]);
    } else {
      BehaviourInv(job, trace, acts, t - 1);
      ActInv(job, trace[0].c, trace[t - 1], acts[t - 1]);
    }
  }

  // ----- the end

  predicate Through<T>(job: Job<T>, s: State<T>) {
    forall id: nat :: id < |s.clusters| ==> s.clusters[id].mt == id * job.per + job.per
  }

  lemma ThroughPast<T>(job: Job<T>, s: State<T>, id: nat, mt: nat, i: nat, nt: nat, j: nat)
    requires Through(job, s) && id < |s.clusters| && Owns(id, job.per, mt)
    ensures Past(s.clusters[id], mt, i, nt, j)
  {}

  /** In every interleaving: when all clusters are through, every tile of C is finished as by the clusters one after the other,
      and every element of a tile has been stored exactly once, and nothing else. */
  lemma ClustersResult<T>(job: Job<T>, trace: seq<State<T>>, acts: seq<nat>, t: nat)
    requires Behaviour(job, trace, acts) && t < |trace| && Through(job, trace[t])
    ensures var c0, s := trace[0].c, trace[t];
            && |s.c| == |c0| && Legal(job, |c0|)
            && Finished(job.ar, s.c, job.a, job.b, c0, job.p, job.beta, Band(0, job.p.mTiles, job.p.nTiles))
            && (forall x, y :: 0 <= x < y < |s.stores| ==> s.stores[x] != s.stores[y])
            && (forall w: nat :: w in s.stores <==> !NoEntry(job.p, w))
  {
    BehaviourInv(job, trace, acts, t);
    var c0, s, p := trace[0].c, trace[t], job.p;
    forall mt: nat, i: nat, nt: nat, j: nat | IsEntry(p, mt, i, nt, j)
      ensures s.c[p.gc(mt, i, nt, j)] == if (mt, nt) in Band(0, p.mTiles, p.nTiles) && i < p.rows
                                         then Final(job.ar, job.a, job.b, c0, p, job.beta, mt, i, nt, j) else c0[p.gc(mt, i, nt, j)]
    {
      Owner(|s.clusters|, job.per, mt);
      var id: nat :| id < |s.clusters| && Owns(id, job.per, mt);
      assert BandOk(job, c0, s.c, id, s.clusters[id]);
      ThroughPast(job, s, id, mt, i, nt, j);
    }
    forall w: nat ensures w in s.stores <==> !NoEntry(p, w) { EveryEntryStored(job, c0, s, w); }
  }

  lemma EveryEntryStored<T>(job: Job<T>, c0: seq<T>, s: State<T>, w: nat)
    requires Inv(job, c0, s) && Through(job, s)
    ensures w in s.stores <==> !NoEntry(job.p, w)
  {
    if !NoEntry(job.p, w) {
      var mt: nat, i: nat, nt: nat, j: nat :| IsEntry(job.p, mt, i, nt, j) && job.p.gc(mt, i, nt, j) == w;
      Owner(|s.clusters|, job.per, mt);
      var id: nat :| id < |s.clusters| && Owns(id, job.per, mt);
      ThroughPast(job, s, id, mt, i, nt, j);
      assert StoredBy(job, id, s.clusters[id], mt, i, nt, j);
      assert Stored(job, id, s.clusters[id], w);
    }
    if w in s.stores {
      var id: nat :| id < |s.clusters| && Stored(job, id, s.clusters[id], w);
      var mt: nat, i: nat, nt: nat, j: nat :| StoredBy(job, id, s.clusters[id], mt, i, nt, j) && job.p.gc(mt, i, nt, j) == w;
    }
  }

  // ----- it is reached

  /** The elements of a tile from (r, q) on. */
  function Elements(p: Plan, r: nat, q: nat): nat
    decreases p.fm - r, p.fn - q
  {
    if InTile(p, r, q) then 1 + Elements(p, NextElement(p, r, q).0, NextElement(p, r, q).1) else 0
  }

  function TileActs(p: Plan): nat { 2 * Elements(p, 0, 0) + 3 }

  /** The acts a cluster still takes for its tile. */
  function TileLeft(p: Plan, pc: Pc): nat {
    match pc
    case Load(r, q) => Elements(p, r, q) + Elements(p, 0, 0) + 3
    case Compute => Elements(p, 0, 0) + 2
    case Store(r, q) => Elements(p, r, q) + 1
  }

  /** The acts of the tiles after (mt, nt), up to row `last` of tiles. */
  function TilesAfter(p: Plan, last: nat, mt: nat, nt: nat): nat
    requires mt < last && nt < p.nTiles
    decreases last - mt, p.nTiles - nt
  {
    if nt + 1 < p.nTiles then TileActs(p) + TilesAfter(p, last, mt, nt + 1)
    else if mt + 1 < last then TileActs(p) + TilesAfter(p, last, mt + 1, 0)
    else 0
  }

  function ClusterLeft<T>(job: Job<T>, id: nat, k: Cluster<T>): nat {
    if Busy(job, id, k) then TileLeft(job.p, k.pc) + TilesAfter(job.p, id * job.per + job.per, k.mt, k.nt) else 0
  }

  /** The acts the first n clusters still take. */
  function Left<T>(job: Job<T>, clusters: seq<Cluster<T>>, n: nat): nat
    requires n <= |clusters|
  {
    if n == 0 then 0 else Left(job, clusters, n - 1) + ClusterLeft(job, n - 1, clusters[n - 1])
  }

  lemma {:induction false} LeftUpdate<T>(job: Job<T>, clusters: seq<Cluster<T>>, id: nat, k: Cluster<T>, n: nat)
    requires id < |clusters| && n <= |clusters|
    ensures Left(job, clusters[id := k], n) == Left(job, clusters, n) + if id < n then ClusterLeft(job, id, k) - ClusterLeft(job, id, clusters[id]) else 0
  {
    if n == 0 {
    } else {
      LeftUpdate(job, clusters, id, k, n - 1);
    }
  }

  lemma ClusterFalls<T>(job: Job<T>, s: State<T>, id: nat)
    requires Enabled(job, s, id) && id < |s.clusters| && |s.clusters| * job.per == job.p.mTiles
    ensures var s' := Apply(job, s, id);
            && |s'.clusters| == |s.clusters| && s'.clusters == s.clusters[id := s'.clusters[id]]
            && ClusterLeft(job, id, s'.clusters[id]) + 1 == ClusterLeft(job, id, s.clusters[id])
  {
    GroupFits(id, |s.clusters|, job.per);
  }

  /** Every act of a run is one of those left, so every run is as long as it can be, and one that cannot be continued has come
      to the end. */
  lemma {:induction false} RunsEnd<T>(job: Job<T>, trace: seq<State<T>>, acts: seq<nat>, t: nat)
    requires Behaviour(job, trace, acts) && t <= |acts|
    ensures var s, last := trace[t], trace[|acts|];
            |acts| - t + Left(job, last.clusters, |last.clusters|) == Left(job, s.clusters, |s.clusters|)
    ensures (forall id: nat :: !Enabled(job, trace[|acts|], id)) <==> Through(job, trace[|acts|])
    decreases |acts| - t
  {
    BehaviourInv(job, trace, acts, t);
    var s := trace[t];
    if t < |acts| {
      var id := acts[t];
      ClusterFalls(job, s, id);
      LeftUpdate(job, s.clusters, id, trace[t + 1].clusters[id], |s.clusters|);
      RunsEnd(job, trace, acts, t + 1);
    } else {
      forall id: nat | id < |s.clusters| ensures Enabled(job, s, id) <==> s.clusters[id].mt != id * job.per + job.per {
        assert ClusterOk(job, trace[0].c, id, s.clusters[id]);
      }
    }
  }

  /** For the plan of gemm the result is what the sequential multiply ensures. */
  lemma GemmResult<T>(job: Job<T>, trace: seq<State<T>>, acts: seq<nat>, t: nat, M: nat, tiling: Tiling, cores: nat, share: nat, heap: nat)
    requires Behaviour(job, trace, acts) && t < |trace| && Through(job, trace[t])
    requires job.p == PlanOf(tiling, job.p.K, job.p.N, cores, share, heap) && Within(tiling, M, job.p.N, job.p.K)
    requires |trace[0].c| == M * job.p.N && |job.a| == M * job.p.K && |job.b| == job.p.K * job.p.N
    ensures |trace[t].c| == |trace[0].c|
    ensures IsTiled(job.ar, trace[t].c, job.a, job.b, trace[0].c, job.beta, M, job.p.N, job.p.K, tiling)
  {
    ClustersResult(job, trace, acts, t);
    FinishedIsTiled(job.ar, trace[t].c, job.a, job.b, trace[0].c, job.p, job.beta, M, tiling);
  }
}
