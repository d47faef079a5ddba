/** The tree reduction with its concurrency: one act per element a data mover copies, per load and per store of a compute
    core, and per barrier that opens. The global barrier separates a level's transfers from its additions; only the cluster
    barrier separates the additions from the next level's transfers. */
module ReductionRun {
  import opened Arithmetic
  import opened ReductionTree
  import opened Counting

  datatype Role = Gives | Takes | Rests

  /** What a cluster does in a level (lines 144 to 162). */
  function RoleOf(c: nat, level: nat): Role {
    if Sends(c, level) then Gives else if Active(c, level) then Takes else Rests
  }

  /** The source buffers, the cores and elements of every cluster, and the schedule: how many levels there are, who does
      what, and how far a level sends. */
  datatype System = System(src: seq<Buffer>, cores: nat, len: nat, levels: nat, role: (nat, nat) -> Role, hop: nat -> nat)

  /** The schedule is the tree's. */
  ghost predicate Scheduled(y: System) {
    && |y.src| > 1 && y.levels == Levels(|y.src|) && (forall level: nat :: y.hop(level) == Pow2(level))
    && forall c: nat, level: nat :: y.role(c, level) == RoleOf(c, level)
  }

  predicate Sane(y: System) { y.cores > 0 && |y.src| > 1 && Shaped(y.src, |y.src|, y.len) }

  /** A data mover sends element e of a level, or waits at a barrier. */
  datatype Mover = Sending(level: nat, e: nat) | AtGlobal(level: nat) | AtCluster(level: nat) | Through

  /** A compute core waits at a barrier, is about to load its i-th element, or about to store it. */
  datatype Core = Waiting(level: nat) | Loading(level: nat, i: nat) | Storing(level: nat, i: nat, x: real) | Added(level: nat) | Done

  datatype State = State(dst: seq<Buffer>, movers: seq<Mover>, cores: seq<seq<Core>>)

  datatype Act = Copy(c: nat) | Load(c: nat, id: nat) | Store(c: nat, id: nat) | OpenGlobal(level: nat) | OpenCluster(c: nat)

  function Items(y: System): nat
    requires Sane(y)
  {
    Quot(y.len, y.cores)
  }

  /** Where element i of core id is. */
  function Place(y: System, id: nat, i: nat): nat
    requires Sane(y)
  {
    id * Items(y) + i
  }

  function StartMover(y: System, c: nat, level: nat): Mover
    requires Sane(y)
  {
    if level >= y.levels then Through
    else if y.role(c, level) == Gives && y.len > 0 then Sending(level, 0) else AtGlobal(level)
  }

  function StartCore(y: System, level: nat): Core
    requires Sane(y)
  {
    if level >= y.levels then Done else Waiting(level)
  }

  /** A core after the global barrier of a level. */
  function Work(y: System, c: nat, level: nat): Core
    requires Sane(y)
  {
    if y.role(c, level) == Takes && Items(y) > 0 then Loading(level, 0) else Added(level)
  }

  predicate Sized(y: System, s: State) {
    && |s.dst| == |s.movers| == |s.cores| == |y.src| && Shaped(s.dst, |y.src|, y.len)
    && forall c :: 0 <= c < |s.cores| ==> |s.cores[c]| == y.cores
  }

  predicate Enabled(y: System, s: State, a: Act)
    requires Sane(y) && Sized(y, s)
  {
    match a
    case Copy(c) =>
      c < |s.movers| && s.movers[c].Sending? && s.movers[c].e < y.len && y.hop(s.movers[c].level) <= c
    case Load(c, id) =>
      c < |s.cores| && id < y.cores && s.cores[c][id].Loading? && Place(y, id, s.cores[c][id].i) < y.len
    case Store(c, id) =>
      c < |s.cores| && id < y.cores && s.cores[c][id].Storing? && Place(y, id, s.cores[c][id].i) < y.len
    case OpenGlobal(level) =>
      (forall c :: 0 <= c < |s.movers| ==> s.movers[c] == AtGlobal(level))
      && forall c, id :: 0 <= c < |s.cores| && 0 <= id < y.cores ==> s.cores[c][id] == Waiting(level)
    case OpenCluster(c) =>
      c < |s.movers| && s.movers[c].AtCluster? && forall id :: 0 <= id < y.cores ==> s.cores[c][id] == Added(s.movers[c].level)
  }

  function Apply(y: System, s: State, a: Act): State
    requires Sane(y) && Sized(y, s) && Enabled(y, s, a)
  {
    match a
    case Copy(c) =>
      var Sending(level, e) := s.movers[c];
      var to := c - y.hop(level);
      s.(dst := s.dst[to := s.dst[to][e := y.src[c][e]]],
         movers := s.movers[c := if e + 1 < y.len then Sending(level, e + 1) else AtGlobal(level)])
    case Load(c, id) =>
      var Loading(level, i) := s.cores[c][id];
      s.(cores := s.cores[c := s.cores[c][id := Storing(level, i, s.dst[c][Place(y, id, i)])]])
    case Store(c, id) =>
      var Storing(level, i, x) := s.cores[c][id];
      var p := Place(y, id, i);
      s.(dst := s.dst[c := s.dst[c][p := x + y.src[c][p]]],
         cores := s.cores[c := s.cores[c][id := if i + 1 < Items(y) then Loading(level, i + 1) else Added(level)]])
    case OpenGlobal(level) =>
      s.(movers := seq(|s.movers|, _ => AtCluster(level)),
         cores := seq(|s.cores|, c requires 0 <= c < |s.cores| => seq(y.cores, _ => Work(y, c, level))))
    case OpenCluster(c) =>
      var level := s.movers[c].level;
      s.(movers := s.movers[c := StartMover(y, c, level + 1)], cores := s.cores[c := seq(y.cores, _ => StartCore(y, level + 1))])
  }

  lemma ApplySized(y: System, s: State, a: Act)
    requires Sane(y) && Sized(y, s) && Enabled(y, s, a)
    ensures Sized(y, Apply(y, s, a))
  {}

  predicate Init(y: System, s: State)
    requires Sane(y)
  {
    && Sized(y, s)
    && (forall c :: 0 <= c < |s.movers| ==> s.movers[c] == StartMover(y, c, 0))
    && forall c, id :: 0 <= c < |s.cores| && 0 <= id < y.cores ==> s.cores[c][id] == StartCore(y, 0)
  }

  ghost predicate Step(y: System, s: State, a: Act, s': State)
    requires Sane(y)
  {
    Sized(y, s) && Enabled(y, s, a) && s' == Apply(y, s, a)
  }

  ghost predicate Behaviour(y: System, trace: seq<State>, acts: seq<Act>)
    requires Sane(y)
  {
    && |trace| == |acts| + 1 && Init(y, trace[0])
    && forall j :: 0 <= j < |acts| ==> Step(y, trace[j], acts[j], trace[j + 1])
  }

  // ----- the schedule

  /** What the schedule is needed for: in every level cluster 0 adds and hop(level) sends to it, and nobody sends too far. */
  ghost predicate Spread(y: System) {
    var spread :=
      && y.levels > 0
      && (forall level: nat :: level < y.levels ==> LevelOk(y, level))
      && (forall c: nat, level: nat :: c < |y.src| && level < y.levels && y.role(c, level) == Gives ==> y.hop(level) <= c);
    spread
  }

  predicate LevelOk(y: System, level: nat) {
    0 < y.hop(level) < |y.src| && y.role(y.hop(level), level) == Gives && y.role(0, level) == Takes
  }

  lemma ScheduledSpread(y: System)
    requires Sane(y) && Scheduled(y)
    ensures Spread(y)
  {
    var n := |y.src|;
    assert Pow2(0) == 1;
    forall level: nat | level < y.levels ensures LevelOk(y, level) {
      RootReceives(n, level);
      RootActive(level);
      assert y.role(0, level) == RoleOf(0, level) && y.role(y.hop(level), level) == RoleOf(Pow2(level), level);
    }
    forall c: nat, level: nat | c < n && level < y.levels && y.role(c, level) == Gives ensures y.hop(level) <= c {
      assert y.role(c, level) == RoleOf(c, level);
      TargetReceives(n, c, level);
    }
  }

  lemma RootActive(level: nat)
    ensures Active(0, level)
  {
    DivUnique(0, Pow2(level), 0, 0);
  }

  // ----- where the clusters are

  /** Before the global barrier of level g, or through. */
  predicate Ahead(y: System, s: State, c: nat, g: nat)
    requires Sane(y) && Sized(y, s) && c < |y.src|
  {
    if g == y.levels then s.movers[c] == Through && forall id :: 0 <= id < y.cores ==> s.cores[c][id] == Done
    else
      && (s.movers[c] == AtGlobal(g) || (s.movers[c].Sending? && s.movers[c].level == g && s.movers[c].e < y.len && y.role(c, g) == Gives))
      && forall id :: 0 <= id < y.cores ==> s.cores[c][id] == Waiting(g)
  }

  predicate AddsIn(y: System, core: Core, adds: bool, level: nat)
    requires Sane(y)
  {
    match core
    case Loading(l, i) => adds && l == level && i < Items(y)
    case Storing(l, i, _) => adds && l == level && i < Items(y)
    case Added(l) => l == level
    case _ => false
  }

  /** Between the global barrier of a level and the cluster barrier. */
  predicate Behind(y: System, s: State, c: nat, level: nat)
    requires Sane(y) && Sized(y, s) && c < |y.src|
  {
    && s.movers[c] == AtCluster(level)
    && forall id :: 0 <= id < y.cores ==> AddsIn(y, s.cores[c][id], y.role(c, level) == Takes, level)
  }

  predicate Stands(y: System, s: State, c: nat, g: nat)
    requires Sane(y) && Sized(y, s) && c < |y.src|
  {
    Ahead(y, s, c, g) || (g > 0 && Behind(y, s, c, g - 1))
  }

  /** g global barriers have opened. */
  ghost predicate Phase(y: System, s: State, g: nat)
    requires Sane(y) && Sized(y, s)
  {
    var phase := g <= y.levels && forall c: nat :: c < |y.src| ==> Stands(y, s, c, g);
    phase
  }

  lemma OthersStand(y: System, s: State, s': State, c: nat, g: nat)
    requires Sane(y) && Sized(y, s) && Sized(y, s') && Phase(y, s, g) && c < |y.src| && Stands(y, s', c, g)
    requires forall d: nat :: d < |y.src| && d != c ==> s'.movers[d] == s.movers[d] && s'.cores[d] == s.cores[d]
    ensures Phase(y, s', g)
  {
    forall d: nat | d < |y.src| ensures Stands(y, s', d, g) {
      assert Stands(y, s, d, g);
    }
  }

  lemma ActPhase(y: System, s: State, a: Act, g: nat)
    requires Sane(y) && Sized(y, s) && Spread(y) && Phase(y, s, g) && Enabled(y, s, a)
    ensures Sized(y, Apply(y, s, a)) && Phase(y, Apply(y, s, a), if a.OpenGlobal? then g + 1 else g)
    ensures a.OpenGlobal? ==> a.level == g < y.levels
  {
    ApplySized(y, s, a);
    var s' := Apply(y, s, a);
    match a
    case Copy(c) => assert Stands(y, s, c, g); OthersStand(y, s, s', c, g);
    case Load(c, id) => assert Stands(y, s, c, g); OthersStand(y, s, s', c, g);
    case Store(c, id) => assert Stands(y, s, c, g); OthersStand(y, s, s', c, g);
    case OpenGlobal(level) =>
      var next := g + 1;
      assert Stands(y, s, 0, g) && s.movers[0] == AtGlobal(level);
      forall c: nat | c < |y.src| ensures Stands(y, s', c, next) { assert Behind(y, s', c, g); }
    case OpenCluster(c) => assert Stands(y, s, c, g); OthersStand(y, s, s', c, g);
  }

  // ----- what cluster 0 holds

  /** x is element p of the buffer sent in level j, with k times the own element on top. */
  predicate Combines(y: System, p: nat, x: real, j: nat, k: nat)
    requires Sane(y)
  {
    j < y.levels && y.hop(j) < |y.src| && p < y.len && x == y.src[y.hop(j)][p] + k as real * y.src[0][p]
  }

  /** At most `most` additions have gone into x, at least `least`, and one more if x goes back to a level before `top`. */
  ghost predicate Mixed(y: System, p: nat, x: real, top: nat, least: nat, most: nat)
    requires Sane(y)
  {
    exists j: nat, k: nat :: Combines(y, p, x, j, k) && j <= top && least <= k <= most && (j == top || k > least)
  }

  ghost predicate Loose(y: System, p: nat, x: real, top: nat, most: nat)
    requires Sane(y)
  {
    exists j: nat, k: nat :: Combines(y, p, x, j, k) && j <= top && k <= most
  }

  lemma MixedOf(y: System, p: nat, x: real, j: nat, k: nat, top: nat, least: nat, most: nat)
    requires Sane(y) && Combines(y, p, x, j, k) && j <= top && least <= k <= most && (j == top || k > least)
    ensures Mixed(y, p, x, top, least, most)
  {}

  /** One more addition. */
  lemma MixedAdd(y: System, p: nat, x: real, top: nat, least: nat, most: nat)
    requires Sane(y) && p < y.len && Mixed(y, p, x, top, least, most)
    ensures Mixed(y, p, x + y.src[0][p], top, least + 1, most + 1)
  {
    var j: nat, k: nat :| Combines(y, p, x, j, k) && j <= top && least <= k <= most && (j == top || k > least);
    AddOnce(k, y.src[0][p]);
    MixedOf(y, p, x + y.src[0][p], j, k + 1, top, least + 1, most + 1);
  }

  lemma LooseAdd(y: System, p: nat, x: real, top: nat, most: nat)
    requires Sane(y) && p < y.len && Loose(y, p, x, top, most)
    ensures Mixed(y, p, x + y.src[0][p], top, 0, most + 1)
  {
    var j: nat, k: nat :| Combines(y, p, x, j, k) && j <= top && k <= most;
    AddOnce(k, y.src[0][p]);
    MixedOf(y, p, x + y.src[0][p], j, k + 1, top, 0, most + 1);
  }

  lemma AddOnce(k: nat, x: real)
    ensures (k + 1) as real * x == k as real * x + x
  {}

  /** A copy holds the buffer itself. */
  lemma Copied(y: System, p: nat, level: nat, most: nat)
    requires Sane(y) && level < y.levels && y.hop(level) < |y.src| && p < y.len
    ensures Mixed(y, p, y.src[y.hop(level)][p], level, 0, most)
  {
    assert 0 as real * y.src[0][p] == 0.0;
    assert Combines(y, p, y.src[y.hop(level)][p], level, 0);
  }

  lemma MixedLoose(y: System, p: nat, x: real, top: nat, most: nat, top': nat)
    requires Sane(y) && Mixed(y, p, x, top, 0, most) && top <= top'
    ensures Loose(y, p, x, top', most)
  {
    var j: nat, k: nat :| Combines(y, p, x, j, k) && j <= top && k <= most;
  }

  /** The transfer of level g to cluster 0 has passed element p. */
  predicate Passed(y: System, s: State, g: nat, p: nat)
    requires Sane(y) && Sized(y, s)
  {
    && g < y.levels && y.hop(g) < |y.src|
    && var m := s.movers[y.hop(g)];
       m == AtGlobal(g) || (m.Sending? && m.level == g && p < m.e)
  }

  /** How many elements of its share a core has added in its level. */
  function AddedIn(y: System, core: Core): nat
    requires Sane(y)
  {
    match core
    case Loading(_, i) => i
    case Storing(_, i, _) => i
    case _ => Items(y)
  }

  /** After g > 0 global barriers: element i of core id in cluster 0. */
  ghost predicate ValueOk(y: System, s: State, g: nat, id: nat, i: nat)
    requires Sane(y) && Sized(y, s) && Spread(y) && 0 < g <= y.levels && id < y.cores && i < Items(y)
  {
    var p, added := Place(y, id, i), i < AddedIn(y, s.cores[0][id]);
    && p < y.len
    && if Passed(y, s, g, p) then LevelOk(y, g) && (if added then Mixed(y, p, s.dst[0][p], g, 0, g) else s.dst[0][p] == y.src[y.hop(g)][p])
       else if added then Mixed(y, p, s.dst[0][p], g - 1, 1, g)
       else Mixed(y, p, s.dst[0][p], g - 1, 0, g - 1)
  }

  /** What core id of cluster 0 has loaded. */
  ghost predicate LoadedOk(y: System, s: State, g: nat, id: nat)
    requires Sane(y) && Sized(y, s) && 0 < g <= y.levels && id < y.cores
  {
    match s.cores[0][id]
    case Storing(_, i, x) =>
      var p := Place(y, id, i);
      if Passed(y, s, g, p) then Loose(y, p, x, g, g - 1) else Mixed(y, p, x, g - 1, 0, g - 1)
    case _ => true
  }

  /** An element beyond the cores' shares. */
  predicate RestOk(y: System, s: State, g: nat, p: nat)
    requires Sane(y) && Sized(y, s) && 0 < g <= y.levels && p < y.len
  {
    var level := if Passed(y, s, g, p) then g else g - 1;
    level < y.levels && y.hop(level) < |y.src| && s.dst[0][p] == y.src[y.hop(level)][p]
  }

  ghost predicate Values(y: System, s: State, g: nat)
    requires Sane(y) && Sized(y, s) && Spread(y) && g <= y.levels
  {
    var values :=
      if g == 0 then forall p: nat :: p < y.len && Passed(y, s, 0, p) ==> FirstOk(y, s, p)
      else
        && (forall id: nat, i: nat :: id < y.cores && i < Items(y) ==> ValueOk(y, s, g, id, i))
        && (forall id: nat :: id < y.cores ==> LoadedOk(y, s, g, id))
        && forall p: nat :: Covered(y.len, y.cores) <= p < y.len ==> RestOk(y, s, g, p);
    values
  }

  predicate FirstOk(y: System, s: State, p: nat)
    requires Sane(y) && Sized(y, s) && p < y.len
  {
    y.levels > 0 && y.hop(0) < |y.src| && s.dst[0][p] == y.src[y.hop(0)][p]
  }

  ghost predicate Inv(y: System, s: State, g: nat)
    requires Sane(y)
  {
    var inv := Sized(y, s) && Spread(y) && Phase(y, s, g) && Values(y, s, g);
    inv
  }

  lemma PlaceBound(y: System, id: nat, i: nat)
    requires Sane(y) && id < y.cores && i < Items(y)
    ensures Place(y, id, i) < Covered(y.len, y.cores) <= y.len
  {
    ShareFits(id, y.cores, Items(y));
    CoveredFits(y.len, y.cores);
  }

  lemma PlaceUnique(y: System, id: nat, i: nat, id': nat, i': nat)
    requires Sane(y) && i < Items(y) && i' < Items(y) && Place(y, id, i) == Place(y, id', i')
    ensures id == id' && i == i'
  {
    var e := id - id';
    assert e * Items(y) == id * Items(y) - id' * Items(y);
    MulFar(e, Items(y));
  }

  lemma InitInv(y: System, s: State)
    requires Sane(y) && Spread(y) && Init(y, s)
    ensures Inv(y, s, 0)
  {
    forall c: nat | c < |y.src| ensures Stands(y, s, c, 0) { assert Ahead(y, s, c, 0); }
    assert LevelOk(y, 0);
    assert s.movers[y.hop(0)] == StartMover(y, y.hop(0), 0);
  }

  // ----- one act

  /** Nothing that the values of cluster 0 depend on has changed. */
  predicate SameRoot(y: System, s: State, s': State, g: nat)
    requires Sane(y) && Sized(y, s) && Sized(y, s')
  {
    && s'.dst[0] == s.dst[0]
    && (forall id :: 0 <= id < y.cores ==> AddedIn(y, s'.cores[0][id]) == AddedIn(y, s.cores[0][id]))
    && (forall id :: 0 <= id < y.cores && s'.cores[0][id].Storing? ==> s'.cores[0][id] == s.cores[0][id])
    && (g < y.levels && y.hop(g) < |y.src| ==> forall p: nat :: p < y.len ==> Passed(y, s', g, p) == Passed(y, s, g, p))
  }

  lemma SameValues(y: System, s: State, s': State, g: nat)
    requires Sane(y) && Inv(y, s, g) && Sized(y, s') && SameRoot(y, s, s', g)
    ensures Values(y, s', g)
  {
    if g > 0 {
      forall id: nat, i: nat | id < y.cores && i < Items(y) ensures ValueOk(y, s', g, id, i) {
        assert ValueOk(y, s, g, id, i);
      }
      forall id: nat | id < y.cores ensures LoadedOk(y, s', g, id) {
        assert LoadedOk(y, s, g, id);
        CoreFits(y, s, g, id);
      }
      forall p: nat | Covered(y.len, y.cores) <= p < y.len ensures RestOk(y, s', g, p) { assert RestOk(y, s, g, p); }
    } else {
      forall p: nat | p < y.len && Passed(y, s', 0, p) ensures FirstOk(y, s', p) { assert FirstOk(y, s, p); }
    }
  }

  /** A core that is about to store is within its share. */
  predicate ValueFits(y: System, s: State, g: nat, id: nat)
    requires Sane(y) && Sized(y, s) && id < y.cores
  {
    s.cores[0][id].Storing? ==> s.cores[0][id].i < Items(y) && Place(y, id, s.cores[0][id].i) < y.len
  }

  lemma CoreFits(y: System, s: State, g: nat, id: nat)
    requires Sane(y) && Inv(y, s, g) && id < y.cores
    ensures ValueFits(y, s, g, id)
    ensures s.cores[0][id].Loading? ==> s.cores[0][id].i < Items(y)
    ensures s.cores[0][id].Storing? || s.cores[0][id].Loading? ==> g > 0 && s.cores[0][id].level == g - 1
  {
    assert Stands(y, s, 0, g);
    if s.cores[0][id].Storing? { PlaceBound(y, id, s.cores[0][id].i); }
  }

  lemma CopyValues(y: System, s: State, c: nat, g: nat)
    requires Sane(y) && Inv(y, s, g) && Enabled(y, s, Copy(c)) && Sized(y, Apply(y, s, Copy(c)))
    ensures Values(y, Apply(y, s, Copy(c)), g)
  {
    var s' := Apply(y, s, Copy(c));
    assert Stands(y, s, c, g);
    if c == y.hop(g) {
      RootCopied(y, s, g);
    } else {
      SameValues(y, s, s', g);
    }
  }

  /** The transfer of level g passes one more element of cluster 0. */
  lemma RootCopied(y: System, s: State, g: nat)
    requires Sane(y) && Inv(y, s, g) && g < y.levels && Enabled(y, s, Copy(y.hop(g))) && Sized(y, Apply(y, s, Copy(y.hop(g))))
    ensures Values(y, Apply(y, s, Copy(y.hop(g))), g)
  {
    var s' := Apply(y, s, Copy(y.hop(g)));
    assert LevelOk(y, g) && Stands(y, s, y.hop(g), g);
    var e := s.movers[y.hop(g)].e;
    if g > 0 {
      forall id: nat, i: nat | id < y.cores && i < Items(y) ensures ValueOk(y, s', g, id, i) {
        assert ValueOk(y, s, g, id, i);
        if Place(y, id, i) == e { Copied(y, e, g, g); }
      }
      forall id: nat | id < y.cores ensures LoadedOk(y, s', g, id) {
        assert LoadedOk(y, s, g, id);
        CoreFits(y, s, g, id);
        if s.cores[0][id].Storing? && Place(y, id, s.cores[0][id].i) == e { MixedLoose(y, e, s.cores[0][id].x, g - 1, g - 1, g); }
      }
      forall p: nat | Covered(y.len, y.cores) <= p < y.len ensures RestOk(y, s', g, p) { assert RestOk(y, s, g, p); }
    } else {
      forall p: nat | p < y.len && Passed(y, s', 0, p) ensures FirstOk(y, s', p) { if p != e { assert FirstOk(y, s, p); } }
    }
  }

  lemma LoadValues(y: System, s: State, c: nat, id: nat, g: nat)
    requires Sane(y) && Inv(y, s, g) && Enabled(y, s, Load(c, id)) && Sized(y, Apply(y, s, Load(c, id)))
    ensures Values(y, Apply(y, s, Load(c, id)), g)
  {
    var s' := Apply(y, s, Load(c, id));
    if c == 0 {
      CoreFits(y, s, g, id);
      var i := s.cores[0][id].i;
      forall d: nat, k: nat | d < y.cores && k < Items(y) ensures ValueOk(y, s', g, d, k) { assert ValueOk(y, s, g, d, k); }
      forall d: nat | d < y.cores ensures LoadedOk(y, s', g, d) {
        assert LoadedOk(y, s, g, d);
        CoreFits(y, s, g, d);
        if d == id { RootLoaded(y, s, g, id); }
      }
      forall p: nat | Covered(y.len, y.cores) <= p < y.len ensures RestOk(y, s', g, p) { assert RestOk(y, s, g, p); }
    } else {
      SameValues(y, s, s', g);
    }
  }

  /** What a core of cluster 0 loads. */
  lemma RootLoaded(y: System, s: State, g: nat, id: nat)
    requires Sane(y) && Inv(y, s, g) && g > 0 && id < y.cores && s.cores[0][id].Loading? && s.cores[0][id].i < Items(y)
    ensures var p := Place(y, id, s.cores[0][id].i);
            p < y.len && if Passed(y, s, g, p) then Loose(y, p, s.dst[0][p], g, g - 1) else Mixed(y, p, s.dst[0][p], g - 1, 0, g - 1)
  {
    var i := s.cores[0][id].i;
    var p := Place(y, id, i);
    assert ValueOk(y, s, g, id, i);
    if Passed(y, s, g, p) {
      Copied(y, p, g, g - 1);
      MixedLoose(y, p, s.dst[0][p], g, g - 1, g);
    }
  }

  lemma StoreValues(y: System, s: State, c: nat, id: nat, g: nat)
    requires Sane(y) && Inv(y, s, g) && Enabled(y, s, Store(c, id)) && Sized(y, Apply(y, s, Store(c, id)))
    ensures Values(y, Apply(y, s, Store(c, id)), g)
  {
    var s' := Apply(y, s, Store(c, id));
    if c == 0 {
      CoreFits(y, s, g, id);
      var n := s.cores[0][id].i;
      PlaceBound(y, id, n);
      forall d: nat, k: nat | d < y.cores && k < Items(y) ensures ValueOk(y, s', g, d, k) {
        assert ValueOk(y, s, g, d, k);
        if Place(y, d, k) == Place(y, id, n) {
          PlaceUnique(y, d, k, id, n);
          RootStored(y, s, g, id);
        }
      }
      forall d: nat | d < y.cores ensures LoadedOk(y, s', g, d) {
        assert LoadedOk(y, s, g, d);
        CoreFits(y, s, g, d);
      }
      forall p: nat | Covered(y.len, y.cores) <= p < y.len ensures RestOk(y, s', g, p) { assert RestOk(y, s, g, p); }
    } else {
      assert Stands(y, s, c, g);
      SameValues(y, s, s', g);
    }
  }

  /** What it stores. */
  lemma RootStored(y: System, s: State, g: nat, id: nat)
    requires Sane(y) && Inv(y, s, g) && g > 0 && id < y.cores && s.cores[0][id].Storing? && s.cores[0][id].i < Items(y)
    ensures var p, x := Place(y, id, s.cores[0][id].i), s.cores[0][id].x;
            && p < y.len && (Passed(y, s, g, p) ==> LevelOk(y, g))
            && if Passed(y, s, g, p) then Mixed(y, p, x + y.src[0][p], g, 0, g) else Mixed(y, p, x + y.src[0][p], g - 1, 1, g)
  {
    var p, x := Place(y, id, s.cores[0][id].i), s.cores[0][id].x;
    assert LoadedOk(y, s, g, id) && ValueOk(y, s, g, id, s.cores[0][id].i);
    if Passed(y, s, g, p) { LooseAdd(y, p, x, g, g - 1); } else { MixedAdd(y, p, x, g - 1, 0, g - 1); }
  }

  /** When a global barrier opens, its transfers have passed everything. */
  lemma GlobalValues(y: System, s: State, g: nat)
    requires Sane(y) && Inv(y, s, g) && g < y.levels && Enabled(y, s, OpenGlobal(g)) && Sized(y, Apply(y, s, OpenGlobal(g)))
    ensures Values(y, Apply(y, s, OpenGlobal(g)), g + 1)
  {
    var s' := Apply(y, s, OpenGlobal(g));
    assert LevelOk(y, g) && s.movers[y.hop(g)] == AtGlobal(g);
    forall p: nat | p < y.len ensures Passed(y, s, g, p) && !Passed(y, s', g + 1, p) {
      assert g + 1 < y.levels ==> LevelOk(y, g + 1);
    }
    var h := g + 1;
    forall id: nat, i: nat | id < y.cores && i < Items(y) ensures ValueOk(y, s', h, id, i) {
      PlaceBound(y, id, i);
      var p := Place(y, id, i);
      if g == 0 {
        assert FirstOk(y, s, p);
        Copied(y, p, 0, 0);
      } else {
        assert ValueOk(y, s, g, id, i);
      }
    }
    forall id: nat | id < y.cores ensures LoadedOk(y, s', h, id) {}
    forall p: nat | Covered(y.len, y.cores) <= p < y.len ensures RestOk(y, s', h, p) {
      if g == 0 { assert FirstOk(y, s, p); } else { assert RestOk(y, s, g, p); }
    }
  }

  lemma ClusterValues(y: System, s: State, c: nat, g: nat)
    requires Sane(y) && Inv(y, s, g) && Enabled(y, s, OpenCluster(c)) && Sized(y, Apply(y, s, OpenCluster(c)))
    ensures Values(y, Apply(y, s, OpenCluster(c)), g)
  {
    var s' := Apply(y, s, OpenCluster(c));
    assert Stands(y, s, c, g);
    assert g < y.levels ==> LevelOk(y, g);
    SameValues(y, s, s', g);
  }

  lemma ActInv(y: System, s: State, a: Act, g: nat)
    requires Sane(y) && Inv(y, s, g) && Enabled(y, s, a)
    ensures Inv(y, Apply(y, s, a), if a.OpenGlobal? then g + 1 else g)
  {
    ActPhase(y, s, a, g);
    match a
    case Copy(c) => CopyValues(y, s, c, g);
    case Load(c, id) => LoadValues(y, s, c, id, g);
    case Store(c, id) => StoreValues(y, s, c, id, g);
    case OpenGlobal(_) => GlobalValues(y, s, g);
    case OpenCluster(c) => ClusterValues(y, s, c, g);
  }

  /** How many global barriers have opened. */
  function Opened(acts: seq<Act>): nat {
    if acts == [] then 0 else Opened(acts[..|acts| - 1]) + if acts[|acts| - 1].OpenGlobal? then 1 else 0
  }

  /** For every number of clusters, in every interleaving, at every position. */
  lemma {:induction false} BehaviourInv(y: System, trace: seq<State>, acts: seq<Act>, t: nat)
    requires Sane(y) && Scheduled(y) && Behaviour(y, trace, acts) && t < |trace|
    ensures Inv(y, trace[t], Opened(acts[..t]))
  {
    ScheduledSpread(y);
    if t == 0 {
      InitInv(y, trace[0]);
    } else {
      BehaviourInv(y, trace, acts, t - 1);
      assert Step(y, trace[t - 1], acts[t - 1], trace[t]);
      ActInv(y, trace[t - 1], acts[t - 1], Opened(acts[..t - 1]));
      assert acts[..t][..t - 1] == acts[..t - 1];
    }
  }

  // ----- what every interleaving leaves

  /** An element that the cores reach ends as the buffer of the last level with the own element added at least once, or that of
      an earlier level with it added at least twice; one they do not reach ends as the buffer of the last level. */
  ghost predicate RootLeft(y: System, d: Buffer)
    requires Sane(y)
  {
    |d| == y.len && y.levels > 0 && forall p: nat :: p < y.len ==> ElementLeft(y, p, d[p])
  }

  ghost predicate ElementLeft(y: System, p: nat, x: real)
    requires Sane(y) && y.levels > 0 && p < y.len
  {
    if p < Covered(y.len, y.cores) then Mixed(y, p, x, y.levels - 1, 1, y.levels)
    else y.hop(y.levels - 1) < |y.src| && x == y.src[y.hop(y.levels - 1)][p]
  }

  lemma PlaceOf(y: System, p: nat) returns (id: nat, i: nat)
    requires Sane(y) && p < Covered(y.len, y.cores)
    ensures id < y.cores && i < Items(y) && p == Place(y, id, i)
  {
    id, i := Quot(p, Items(y)), Rem(p, Items(y));
    MulFar(id - y.cores, Items(y));
    assert (id - y.cores) * Items(y) == id * Items(y) - y.cores * Items(y);
  }

  lemma AnyInterleaving(y: System, trace: seq<State>, acts: seq<Act>, t: nat)
    requires Sane(y) && Scheduled(y) && Behaviour(y, trace, acts) && t < |trace| && |trace[t].movers| > 0 && trace[t].movers[0] == Through
    ensures |trace[t].dst| > 0 && RootLeft(y, trace[t].dst[0])
  {
    BehaviourInv(y, trace, acts, t);
    var s, g := trace[t], Opened(acts[..t]);
    assert Stands(y, s, 0, g);
    forall p: nat | p < y.len ensures ElementLeft(y, p, s.dst[0][p]) {
      if p < Covered(y.len, y.cores) {
        var id, i := PlaceOf(y, p);
        assert ValueOk(y, s, g, id, i);
      } else {
        assert RestOk(y, s, g, p);
      }
    }
  }

  // ----- two clusters

  lemma PairLevels(y: System)
    requires Sane(y) && Scheduled(y) && |y.src| == 2
    ensures y.levels == 1 && y.hop(0) == 1
  {
    assert Pow2(0) == 1 && Pow2(1) == 2 * Pow2(0);
    assert Levels(2) == 1;
  }

  /** The same for one element: it is that of the sender of level j with cluster 0's own added k times. */
  lemma ElementInWords(y: System, trace: seq<State>, acts: seq<Act>, t: nat, p: nat) returns (j: nat, k: nat)
    requires Sane(y) && Scheduled(y) && Behaviour(y, trace, acts) && t < |trace| && |trace[t].movers| > 0 && trace[t].movers[0] == Through
    requires p < y.len
    ensures |trace[t].dst| > 0 && |trace[t].dst[0]| == y.len && j < Levels(|y.src|) && Pow2(j) < |y.src|
    ensures trace[t].dst[0][p] == y.src[Pow2(j)][p] + k as real * y.src[0][p]
    ensures if p < y.cores * (y.len / y.cores)
            then 1 <= k <= Levels(|y.src|) && (j < Levels(|y.src|) - 1 ==> k >= 2)
            else k == 0 && j == Levels(|y.src|) - 1
  {
    AnyInterleaving(y, trace, acts, t);
    j, k := ElementOf(y, p, trace[t].dst[0][p]);
    assert y.hop(j) == Pow2(j);
  }

  lemma ElementOf(y: System, p: nat, x: real) returns (j: nat, k: nat)
    requires Sane(y) && y.levels > 0 && p < y.len && ElementLeft(y, p, x)
    ensures Combines(y, p, x, j, k)
    ensures if p < y.cores * (y.len / y.cores) then 1 <= k <= y.levels && (j < y.levels - 1 ==> k >= 2) else k == 0 && j == y.levels - 1
  {
    if p < Covered(y.len, y.cores) {
      j, k :| Combines(y, p, x, j, k) && j <= y.levels - 1 && 1 <= k <= y.levels && (j == y.levels - 1 || k > 1);
    } else {
      j, k := y.levels - 1, 0;
    }
  }

  /** With two clusters there is one level, so cluster 0 ends with what cluster 1 sent and its own elements added once where
      the cores reach. */
  lemma TwoClustersHold(y: System, trace: seq<State>, acts: seq<Act>, t: nat)
    requires Sane(y) && Scheduled(y) && |y.src| == 2 && Behaviour(y, trace, acts) && t < |trace|
    requires |trace[t].movers| > 0 && trace[t].movers[0] == Through
    ensures |trace[t].dst| > 0 && RootHolds(y.src, trace[t].dst[0], 1, y.cores, y.len)
  {
    AnyInterleaving(y, trace, acts, t);
    PairLevels(y);
    var d := trace[t].dst[0];
    forall p: nat | p < y.len ensures d[p] == if p < Covered(y.len, y.cores) then y.src[1][p] + y.src[0][p] else y.src[1][p] {
      assert ElementLeft(y, p, d[p]);
      if p < Covered(y.len, y.cores) {
        var j: nat, k: nat :| Combines(y, p, d[p], j, k) && j <= 0 && 1 <= k <= 1;
        AddOnce(0, y.src[0][p]);
      }
    }
  }

  /** So it is the sum of both buffers, in every interleaving, if the cores divide the length. */
  lemma TwoClustersSum(y: System, trace: seq<State>, acts: seq<Act>, t: nat)
    requires Sane(y) && Scheduled(y) && |y.src| == 2 && Behaviour(y, trace, acts) && t < |trace|
    requires |trace[t].movers| > 0 && trace[t].movers[0] == Through && y.len % y.cores == 0
    ensures |trace[t].dst| > 0 && IsSum(y.src, trace[t].dst[0], y.len)
    ensures |trace[t].dst[0]| == y.len && forall p: nat :: p < y.len ==> trace[t].dst[0][p] == y.src[0][p] + y.src[1][p]
  {
    TwoClustersHold(y, trace, acts, t);
    TwoClusters(y.src, trace[t].dst[0], y.cores, y.len);
  }

  // ----- the end is reached

  /** Acts of a data mover in the levels from its own on; `work` is the most a level takes. */
  function MoverLeft(y: System, m: Mover): nat {
    match m
    case Sending(level, e) => Levelled(y, level, y.len + 3) + if e < y.len then y.len - e + 2 else 2
    case AtGlobal(level) => Levelled(y, level, y.len + 3) + 2
    case AtCluster(level) => Levelled(y, level, y.len + 3) + 1
    case Through => 0
  }

  /** The levels after this one, at so much work each. */
  function Levelled(y: System, level: nat, work: nat): nat
    decreases y.levels - level
  {
    if level + 1 < y.levels then work + Levelled(y, level + 1, work) else 0
  }

  function CoreLeft(y: System, core: Core): nat
    requires Sane(y)
  {
    var items, work := Items(y), 2 * Items(y) + 3;
    match core
    case Waiting(level) => Levelled(y, level, work) + 2 * items + 2
    case Loading(level, i) => Levelled(y, level, work) + (if i < items then 2 * (items - i) else 0) + 1
    case Storing(level, i, _) => Levelled(y, level, work) + (if i < items then 2 * (items - i) - 1 else 0) + 1
    case Added(level) => Levelled(y, level, work) + 1
    case Done => 0
  }

  function MoverRank(y: System): Mover -> nat { (m: Mover) => MoverLeft(y, m) }

  function CoreRank(y: System): Core -> nat
    requires Sane(y)
  {
    (core: Core) => CoreLeft(y, core)
  }

  function RowRank(y: System): seq<Core> -> nat
    requires Sane(y)
  {
    (row: seq<Core>) => Total(CoreRank(y), row)
  }

  function Rank(y: System, s: State): nat
    requires Sane(y)
  {
    Total(MoverRank(y), s.movers) + Total(RowRank(y), s.cores)
  }

  /** One data mover goes on. */
  lemma MoverFalls(y: System, s: State, s': State, c: nat)
    requires Sane(y) && c < |s.movers| == |s'.movers| && s'.cores == s.cores && MoverLeft(y, s'.movers[c]) < MoverLeft(y, s.movers[c])
    requires forall d :: 0 <= d < |s.movers| && d != c ==> s'.movers[d] == s.movers[d]
    ensures Rank(y, s') < Rank(y, s)
  {
    TotalFalls(MoverRank(y), s.movers, s'.movers, c);
  }

  /** One core goes on. */
  lemma CoreFalls(y: System, s: State, s': State, c: nat, id: nat)
    requires Sane(y) && c < |s.cores| == |s'.cores| && s'.movers == s.movers && id < |s.cores[c]| == |s'.cores[c]|
    requires (forall d :: 0 <= d < |s.cores| && d != c ==> s'.cores[d] == s.cores[d]) && s'.cores[c] == s.cores[c][id := s'.cores[c][id]]
    requires CoreLeft(y, s'.cores[c][id]) < CoreLeft(y, s.cores[c][id])
    ensures Rank(y, s') < Rank(y, s)
  {
    TotalFalls(CoreRank(y), s.cores[c], s'.cores[c], id);
    TotalFalls(RowRank(y), s.cores, s'.cores, c);
  }

  /** Some data movers and cores go on together, and one data mover for certain. */
  lemma AllFall(y: System, s: State, s': State, c: nat)
    requires Sane(y) && c < |s.movers| == |s'.movers| && |s.cores| == |s'.cores| && MoverLeft(y, s'.movers[c]) < MoverLeft(y, s.movers[c])
    requires forall d :: 0 <= d < |s.movers| ==> MoverLeft(y, s'.movers[d]) <= MoverLeft(y, s.movers[d])
    requires forall d :: 0 <= d < |s.cores| ==> RowLeast(y, s.cores[d], s'.cores[d])
    ensures Rank(y, s') < Rank(y, s)
  {
    TotalFalls(MoverRank(y), s.movers, s'.movers, c);
    forall d | 0 <= d < |s.cores| ensures RowRank(y)(s'.cores[d]) <= RowRank(y)(s.cores[d]) {
      TotalLeast(CoreRank(y), s.cores[d], s'.cores[d]);
    }
    TotalLeast(RowRank(y), s.cores, s'.cores);
  }

  predicate RowLeast(y: System, row: seq<Core>, row': seq<Core>)
    requires Sane(y)
  {
    |row| == |row'| && forall id :: 0 <= id < |row| ==> CoreLeft(y, row'[id]) <= CoreLeft(y, row[id])
  }

  lemma RankFalls(y: System, s: State, a: Act, g: nat)
    requires Sane(y) && Inv(y, s, g) && Enabled(y, s, a)
    ensures Rank(y, Apply(y, s, a)) < Rank(y, s)
  {
    var s' := Apply(y, s, a);
    match a
    case Copy(c) => MoverFalls(y, s, s', c);
    case Load(c, id) => WithinShare(y, s, c, id, g); CoreFalls(y, s, s', c, id);
    case Store(c, id) => WithinShare(y, s, c, id, g); CoreFalls(y, s, s', c, id);
    case OpenGlobal(level) => GlobalFalls(y, s, level);
    case OpenCluster(c) => ClusterFalls(y, s, c);
  }

  lemma WithinShare(y: System, s: State, c: nat, id: nat, g: nat)
    requires Sane(y) && Inv(y, s, g) && c < |y.src| && id < y.cores
    ensures s.cores[c][id].Loading? || s.cores[c][id].Storing? ==> s.cores[c][id].i < Items(y)
  {
    assert Stands(y, s, c, g);
  }

  lemma GlobalFalls(y: System, s: State, level: nat)
    requires Sane(y) && Sized(y, s) && Enabled(y, s, OpenGlobal(level))
    ensures Rank(y, Apply(y, s, OpenGlobal(level))) < Rank(y, s)
  {
    var s' := Apply(y, s, OpenGlobal(level));
    assert forall d :: 0 <= d < |s.cores| ==> RowLeast(y, s.cores[d], s'.cores[d]);
    AllFall(y, s, s', 0);
  }

  lemma ClusterFalls(y: System, s: State, c: nat)
    requires Sane(y) && Sized(y, s) && Enabled(y, s, OpenCluster(c))
    ensures Rank(y, Apply(y, s, OpenCluster(c))) < Rank(y, s)
  {
    var s' := Apply(y, s, OpenCluster(c));
    assert forall d :: 0 <= d < |s.cores| ==> RowLeast(y, s.cores[d], s'.cores[d]);
    AllFall(y, s, s', c);
  }

  predicate Finished(y: System, s: State) {
    && (forall c :: 0 <= c < |s.movers| ==> s.movers[c] == Through)
    && forall c, id :: 0 <= c < |s.cores| && 0 <= id < |s.cores[c]| ==> s.cores[c][id] == Done
  }

  /** Between the barriers of a cluster some core can go on, or its barrier opens. */
  lemma BehindMoves(y: System, s: State, c: nat, level: nat)
    requires Sane(y) && Sized(y, s) && c < |y.src| && Behind(y, s, c, level)
    ensures exists a: Act :: Enabled(y, s, a)
  {
    if id: nat :| id < y.cores && s.cores[c][id] != Added(level) {
      assert AddsIn(y, s.cores[c][id], y.role(c, level) == Takes, level);
      PlaceBound(y, id, s.cores[c][id].i);
      assert Enabled(y, s, Load(c, id)) || Enabled(y, s, Store(c, id));
    } else {
      assert Enabled(y, s, OpenCluster(c));
    }
  }

  lemma AllThrough(y: System, s: State)
    requires Sane(y) && Sized(y, s) && forall c: nat :: c < |y.src| ==> Ahead(y, s, c, y.levels)
    ensures Finished(y, s)
  {
    forall c | 0 <= c < |s.movers| ensures s.movers[c] == Through && forall id :: 0 <= id < |s.cores[c]| ==> s.cores[c][id] == Done {
      assert Ahead(y, s, c, y.levels);
    }
  }

  lemma AllWaiting(y: System, s: State, g: nat)
    requires Sane(y) && Sized(y, s) && g != y.levels && forall c: nat :: c < |y.src| ==> Ahead(y, s, c, g) && !s.movers[c].Sending?
    ensures Enabled(y, s, OpenGlobal(g))
  {
    forall c | 0 <= c < |s.movers| ensures s.movers[c] == AtGlobal(g) && forall id :: 0 <= id < y.cores ==> s.cores[c][id] == Waiting(g) {
      assert Ahead(y, s, c, g);
    }
  }

  /** Nobody is stuck before the end. */
  lemma Progress(y: System, s: State, g: nat)
    requires Sane(y) && Inv(y, s, g) && !Finished(y, s)
    ensures exists a: Act :: Enabled(y, s, a)
  {
    if c: nat :| c < |y.src| && !Ahead(y, s, c, g) {
      assert Stands(y, s, c, g);
      BehindMoves(y, s, c, g - 1);
    } else if c: nat :| c < |y.src| && s.movers[c].Sending? {
      assert Ahead(y, s, c, g) && y.hop(g) <= c;
      assert Enabled(y, s, Copy(c));
    } else {
      if g == y.levels {
        AllThrough(y, s);
      } else {
        AllWaiting(y, s, g);
      }
    }
  }

  /** Every run is bounded, and one that cannot be continued has come to the end on every cluster. */
  lemma {:induction false} RunsEnd(y: System, trace: seq<State>, acts: seq<Act>, t: nat)
    requires Sane(y) && Scheduled(y) && Behaviour(y, trace, acts) && t <= |acts|
    ensures |acts| - t <= Rank(y, trace[t]) && Sized(y, trace[|acts|])
    ensures (forall a: Act :: !Enabled(y, trace[|acts|], a)) ==> Finished(y, trace[|acts|])
    decreases |acts| - t
  {
    BehaviourInv(y, trace, acts, t);
    var g := Opened(acts[..t]);
    if t < |acts| {
      assert Step(y, trace[t], acts[t], trace[t + 1]);
      RankFalls(y, trace[t], acts[t], g);
      RunsEnd(y, trace, acts, t + 1);
    } else if !Finished(y, trace[t]) {
      Progress(y, trace[t], g);
    }
  }

  // ----- three clusters

  /** One core and one element per cluster, holding 1, 0 and 0. */
  function Three(): (y: System)
    ensures Sane(y) && |y.src| == 3
  {
    System([[1.0], [0.0], [0.0]], 1, 1, Levels(3), (c: nat, level: nat) => RoleOf(c, level), (level: nat) => Pow2(level))
  }

  /** Its schedule, spelled out. */
  predicate Triple(y: System) {
    && y.src == [[1.0], [0.0], [0.0]] && y.cores == 1 && y.len == 1 && y.levels == 2 && y.hop(0) == 1 && y.hop(1) == 2
    && y.role(0, 0) == Takes && y.role(1, 0) == Gives && y.role(2, 0) == Takes
    && y.role(0, 1) == Takes && y.role(1, 1) == Rests && y.role(2, 1) == Gives
  }

  lemma Powers()
    ensures Pow2(0) == 1 && Pow2(1) == 2 && Pow2(2) == 4
  {}

  lemma LevelsOfThree()
    ensures Levels(3) == 2
  {
    LevelsBetween(3, Levels(3));
  }

  lemma LevelsBetween(n: nat, k: nat)
    requires 2 < n <= 4 && n <= Pow2(k) && (k > 0 ==> Pow2(k - 1) < n)
    ensures k == 2
  {
    Powers();
  }

  lemma RolesAt(c: nat, level: nat, low: nat, high: nat)
    requires c < 3 && low == c % Pow2(level) && high == c % Pow2(level + 1)
    ensures RoleOf(c, level) == if low != 0 then Rests else if high != 0 then Gives else Takes
  {}

  lemma TripleThree()
    ensures Triple(Three()) && Scheduled(Three())
  {
    Powers();
    LevelsOfThree();
    RolesAt(0, 0, 0, 0);
    RolesAt(1, 0, 0, 1);
    RolesAt(2, 0, 0, 0);
    RolesAt(0, 1, 0, 0);
    RolesAt(1, 1, 1, 1);
    RolesAt(2, 1, 0, 2);
  }

  ghost predicate Reachable(y: System, s: State)
    requires Sane(y)
  {
    exists trace: seq<State>, acts: seq<Act> :: Behaviour(y, trace, acts) && trace[|acts|] == s
  }

  lemma Next(y: System, s: State, a: Act, s': State)
    requires Sane(y) && Reachable(y, s) && Step(y, s, a, s')
    ensures Reachable(y, s')
  {
    var trace, acts: seq<Act> :| Behaviour(y, trace, acts) && trace[|acts|] == s;
    var trace', acts' := trace + [s'], acts + [a];
    assert Behaviour(y, trace', acts') && trace'[|acts'|] == s';
  }

  function Snap(d: real, m: seq<Mover>, c: seq<Core>): State
    requires |c| == 3
  {
    State([[d], [0.0], [0.0]], m, [[c[0]], [c[1]], [c[2]]])
  }

  lemma UnitShares(y: System)
    requires Triple(y)
    ensures Sane(y) && Items(y) == 1 && Place(y, 0, 0) == 0
  {}

  lemma SnapCopy(y: System, d: real, m: seq<Mover>, c: seq<Core>, from: nat, level: nat)
    requires Triple(y) && |m| == |c| == 3 && (from == 1 || from == 2) && level == from - 1 && m[from] == Sending(level, 0)
    ensures Step(y, Snap(d, m, c), Copy(from), Snap(0.0, m[from := AtGlobal(level)], c))
  {
    var s := Snap(d, m, c);
    assert s.dst[0][0 := 0.0] == [0.0];
    assert s.dst[0 := [0.0]] == [[0.0], [0.0], [0.0]];
  }

  lemma SnapLoad(y: System, d: real, m: seq<Mover>, c: seq<Core>, k: nat, level: nat)
    requires Triple(y) && |m| == |c| == 3 && k < 3 && c[k] == Loading(level, 0)
    ensures Step(y, Snap(d, m, c), Load(k, 0), Snap(d, m, c[k := Storing(level, 0, if k == 0 then d else 0.0)]))
  {
    UnitShares(y);
    var s, c' := Snap(d, m, c), c[k := Storing(level, 0, if k == 0 then d else 0.0)];
    assert s.cores[k][0 := c'[k]] == [c'[k]];
    assert s.cores[k := [c'[k]]] == [[c'[0]], [c'[1]], [c'[2]]];
  }

  lemma SnapStore(y: System, d: real, m: seq<Mover>, c: seq<Core>, k: nat, level: nat, x: real)
    requires Triple(y) && |m| == |c| == 3 && k < 3 && c[k] == Storing(level, 0, x) && (k > 0 ==> x == 0.0)
    ensures Step(y, Snap(d, m, c), Store(k, 0), Snap(if k == 0 then x + 1.0 else d, m, c[k := Added(level)]))
  {
    UnitShares(y);
    var s, c' := Snap(d, m, c), c[k := Added(level)];
    assert s.cores[k][0 := c'[k]] == [c'[k]];
    assert s.cores[k := [c'[k]]] == [[c'[0]], [c'[1]], [c'[2]]];
    var d' := if k == 0 then x + 1.0 else d;
    assert s.dst[k][0 := x + y.src[k][0]] == if k == 0 then [d'] else [0.0];
    assert s.dst[k := s.dst[k][0 := x + y.src[k][0]]] == [[d'], [0.0], [0.0]];
  }

  lemma SnapGlobal(y: System, d: real, m: seq<Mover>, c: seq<Core>, level: nat)
    requires Triple(y) && m == [AtGlobal(level), AtGlobal(level), AtGlobal(level)] && c == [Waiting(level), Waiting(level), Waiting(level)]
    ensures Sane(y) && Step(y, Snap(d, m, c), OpenGlobal(level),
                            Snap(d, [AtCluster(level), AtCluster(level), AtCluster(level)], [Work(y, 0, level), Work(y, 1, level), Work(y, 2, level)]))
  {
    var s := Snap(d, m, c);
    assert seq(3, _ => AtCluster(level)) == [AtCluster(level), AtCluster(level), AtCluster(level)];
    var s' := Apply(y, s, OpenGlobal(level));
    assert |s'.cores| == 3 && |s'.cores[0]| == 1 && |s'.cores[1]| == 1 && |s'.cores[2]| == 1;
    assert s'.cores[0] == [Work(y, 0, level)];
    assert s'.cores[1] == [Work(y, 1, level)];
    assert s'.cores[2] == [Work(y, 2, level)];
    assert s'.cores == [s'.cores[0], s'.cores[1], s'.cores[2]];
  }

  lemma SnapCluster(y: System, d: real, m: seq<Mover>, c: seq<Core>, k: nat, level: nat)
    requires Triple(y) && |m| == |c| == 3 && k < 3 && m[k] == AtCluster(level) && c[k] == Added(level)
    ensures Sane(y)
    ensures Step(y, Snap(d, m, c), OpenCluster(k), Snap(d, m[k := StartMover(y, k, level + 1)], c[k := StartCore(y, level + 1)]))
  {
    var s, c' := Snap(d, m, c), c[k := StartCore(y, level + 1)];
    assert seq(1, _ => StartCore(y, level + 1)) == [c'[k]];
    assert s.cores[k := [c'[k]]] == [[c'[0]], [c'[1]], [c'[2]]];
  }

  lemma StartTriple(y: System, d: real, m: seq<Mover>, c: seq<Core>)
    requires Triple(y) && m == [AtGlobal(0), Sending(0, 0), AtGlobal(0)] && c == [Waiting(0), Waiting(0), Waiting(0)]
    ensures Sane(y) && Reachable(y, Snap(d, m, c))
  {
    var s := Snap(d, m, c);
    var trace, acts: seq<Act> := [s], [];
    assert Behaviour(y, trace, acts) && trace[|acts|] == s;
  }

  /** Level 0 up to the additions: cluster 1 has sent. */
  lemma RunSent(y: System) returns (s: State)
    requires Triple(y)
    ensures Sane(y) && Reachable(y, s)
    ensures s == Snap(0.0, [AtCluster(0), AtCluster(0), AtCluster(0)], [Loading(0, 0), Added(0), Loading(0, 0)])
  {
    UnitShares(y);
    var m, c := [AtGlobal(0), Sending(0, 0), AtGlobal(0)], [Waiting(0), Waiting(0), Waiting(0)];
    StartTriple(y, 0.0, m, c);
    SnapCopy(y, 0.0, m, c, 1, 0);
    Next(y, Snap(0.0, m, c), Copy(1), Snap(0.0, m[1 := AtGlobal(0)], c));
    m := m[1 := AtGlobal(0)];
    SnapGlobal(y, 0.0, m, c, 0);
    s := Snap(0.0, [AtCluster(0), AtCluster(0), AtCluster(0)], [Loading(0, 0), Added(0), Loading(0, 0)]);
    Next(y, Snap(0.0, m, c), OpenGlobal(0), s);
  }

  /** Cluster 2 adds, opens its barrier and sends its level 1 while cluster 0 has not added its level 0. */
  lemma RunSecond(y: System) returns (s: State)
    requires Triple(y)
    ensures Sane(y) && Reachable(y, s)
    ensures s == Snap(0.0, [AtCluster(0), AtCluster(0), AtCluster(0)], [Loading(0, 0), Added(0), Added(0)])
  {
    UnitShares(y);
    var s0 := RunSent(y);
    var m, c := [AtCluster(0), AtCluster(0), AtCluster(0)], [Loading(0, 0), Added(0), Loading(0, 0)];
    SnapLoad(y, 0.0, m, c, 2, 0);
    Next(y, s0, Load(2, 0), Snap(0.0, m, c[2 := Storing(0, 0, 0.0)]));
    c := c[2 := Storing(0, 0, 0.0)];
    SnapStore(y, 0.0, m, c, 2, 0, 0.0);
    Next(y, Snap(0.0, m, c), Store(2, 0), Snap(0.0, m, c[2 := Added(0)]));
    c := c[2 := Added(0)];
    s := Snap(0.0, m, c);
  }

  lemma RunAhead(y: System) returns (s: State)
    requires Triple(y)
    ensures Sane(y) && Reachable(y, s)
    ensures s == Snap(0.0, [AtCluster(0), AtCluster(0), AtGlobal(1)], [Loading(0, 0), Added(0), Waiting(1)])
  {
    UnitShares(y);
    var s0 := RunSecond(y);
    var m, c := [AtCluster(0), AtCluster(0), AtCluster(0)], [Loading(0, 0), Added(0), Added(0)];
    SnapCluster(y, 0.0, m, c, 2, 0);
    Next(y, s0, OpenCluster(2), Snap(0.0, m[2 := Sending(1, 0)], c[2 := Waiting(1)]));
    m, c := m[2 := Sending(1, 0)], c[2 := Waiting(1)];
    SnapCopy(y, 0.0, m, c, 2, 1);
    Next(y, Snap(0.0, m, c), Copy(2), Snap(0.0, m[2 := AtGlobal(1)], c));
    s := Snap(0.0, m[2 := AtGlobal(1)], c);
  }

  /** Cluster 0 adds its own element for level 0 on top of what was sent for level 1. */
  lemma RunLate(y: System) returns (s: State)
    requires Triple(y)
    ensures Sane(y) && Reachable(y, s)
    ensures s == Snap(1.0, [AtCluster(0), AtCluster(0), AtGlobal(1)], [Added(0), Added(0), Waiting(1)])
  {
    UnitShares(y);
    var s0 := RunAhead(y);
    var m, c := [AtCluster(0), AtCluster(0), AtGlobal(1)], [Loading(0, 0), Added(0), Waiting(1)];
    SnapLoad(y, 0.0, m, c, 0, 0);
    Next(y, s0, Load(0, 0), Snap(0.0, m, c[0 := Storing(0, 0, 0.0)]));
    c := c[0 := Storing(0, 0, 0.0)];
    SnapStore(y, 0.0, m, c, 0, 0, 0.0);
    Next(y, Snap(0.0, m, c), Store(0, 0), Snap(1.0, m, c[0 := Added(0)]));
    s := Snap(1.0, m, c[0 := Added(0)]);
  }

  lemma RunBehind(y: System) returns (s: State)
    requires Triple(y)
    ensures Sane(y) && Reachable(y, s)
    ensures s == Snap(1.0, [AtGlobal(1), AtGlobal(1), AtGlobal(1)], [Waiting(1), Waiting(1), Waiting(1)])
  {
    UnitShares(y);
    var s0 := RunLate(y);
    var m, c := [AtCluster(0), AtCluster(0), AtGlobal(1)], [Added(0), Added(0), Waiting(1)];
    GoneOn(y, 1.0, m, c, 0);
    m, c := m[0 := AtGlobal(1)], c[0 := Waiting(1)];
    GoneOn(y, 1.0, m, c, 1);
    s := Snap(1.0, m[1 := AtGlobal(1)], c[1 := Waiting(1)]);
  }

  /** Cluster k, which does not send in level 1, opens its barrier. */
  lemma GoneOn(y: System, d: real, m: seq<Mover>, c: seq<Core>, k: nat)
    requires Triple(y) && |m| == |c| == 3 && k < 2 && m[k] == AtCluster(0) && c[k] == Added(0)
    requires Sane(y) && Reachable(y, Snap(d, m, c))
    ensures Reachable(y, Snap(d, m[k := AtGlobal(1)], c[k := Waiting(1)]))
  {
    SnapCluster(y, d, m, c, k, 0);
    Next(y, Snap(d, m, c), OpenCluster(k), Snap(d, m[k := AtGlobal(1)], c[k := Waiting(1)]));
  }

  lemma RunThrough(y: System) returns (s: State)
    requires Triple(y)
    ensures Sane(y) && Reachable(y, s) && s == Snap(2.0, [Through, AtCluster(1), AtCluster(1)], [Done, Added(1), Added(1)])
  {
    UnitShares(y);
    var s0 := RunBehind(y);
    SnapGlobal(y, 1.0, [AtGlobal(1), AtGlobal(1), AtGlobal(1)], [Waiting(1), Waiting(1), Waiting(1)], 1);
    var m, c := [AtCluster(1), AtCluster(1), AtCluster(1)], [Loading(1, 0), Added(1), Added(1)];
    Next(y, s0, OpenGlobal(1), Snap(1.0, m, c));
    SnapLoad(y, 1.0, m, c, 0, 1);
    Next(y, Snap(1.0, m, c), Load(0, 0), Snap(1.0, m, c[0 := Storing(1, 0, 1.0)]));
    c := c[0 := Storing(1, 0, 1.0)];
    SnapStore(y, 1.0, m, c, 0, 1, 1.0);
    Next(y, Snap(1.0, m, c), Store(0, 0), Snap(2.0, m, c[0 := Added(1)]));
    c := c[0 := Added(1)];
    SnapCluster(y, 2.0, m, c, 0, 1);
    Next(y, Snap(2.0, m, c), OpenCluster(0), Snap(2.0, m[0 := Through], c[0 := Done]));
    s := Snap(2.0, m[0 := Through], c[0 := Done]);
  }

  /** With three clusters the race can be lost: the own element of cluster 0 is counted twice. */
  lemma ThreeClustersRace() returns (s: State)
    ensures Scheduled(Three()) && Reachable(Three(), s) && Sized(Three(), s) && s.movers[0] == Through && s.dst[0] == [2.0]
    ensures Levels(3) > 0 && Pow2(Levels(3) - 1) == 2 && !RootHolds(Three().src, s.dst[0], 2, 1, 1)
  {
    TripleThree();
    Powers();
    LevelsOfThree();
    s := RunThrough(Three());
    NotHeld(Three().src, s.dst[0]);
  }

  lemma NotHeld(src: seq<Buffer>, d: Buffer)
    requires src == [[1.0], [0.0], [0.0]] && d == [2.0]
    ensures !RootHolds(src, d, 2, 1, 1)
  {
    assert d[0] == 2.0;
  }
}
