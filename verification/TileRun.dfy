/** The compute phase of a tile as it runs: every core multiplies its part, and their accesses to the shared memory interleave
    freely. One act per access: the load of an old entry, the load of an operand of A or of B, the store of a new entry. */
module TileRun {
  import opened MatMul
  import TiledGemm

  /** Where a core is: before the first access of an entry, before the operands of product k, or between the two. */
  datatype Pc<T> = Begin | FromA(k: nat, acc: T) | FromB(k: nat, acc: T, x: T)

  /** A core at entry (m, n) of its part; m is the number of rows when it is through. */
  datatype Core<T> = Core(m: nat, n: nat, pc: Pc<T>)

  /** `stores` is history: the cells stored so far. */
  datatype State<T> = State(mem: seq<T>, cores: seq<Core<T>>, stores: seq<nat>)

  /** The part of one core has cells of its own, and none of another core's cells of C. */
  ghost predicate Foreign(v: View, w: View) {
    && (forall m: nat, n: nat, i: nat, j: nat :: m < v.M && n < v.N && i < w.M && j < w.N ==> v.c(m, n) != w.c(i, j))
    && (forall m: nat, n: nat, i: nat, j: nat, k: nat :: m < v.M && n < v.N && i < w.M && j < w.N && k < w.K ==> v.c(m, n) != w.a(i, j, k))
    && (forall m: nat, n: nat, k: nat, j: nat :: m < v.M && n < v.N && k < w.K && j < w.N ==> v.c(m, n) != w.b(k, j))
  }

  ghost predicate Team(views: seq<View>, size: nat) {
    var team :=
      && (forall i :: 0 <= i < |views| ==> Apart(views[i], size))
      && forall i, j :: 0 <= i < |views| && 0 <= j < |views| && i != j ==> Foreign(views[i], views[j]);
    team
  }

  predicate Working<T>(v: View, c: Core<T>) { c.m < v.M && c.n < v.N }

  /** The entry after (m, n), row by row. */
  function Advance<T>(v: View, m: nat, n: nat): Core<T> { if n + 1 < v.N then Core(m, n + 1, Begin) else Core(m + 1, 0, Begin) }

  ghost predicate Enabled<T>(views: seq<View>, s: State<T>, i: nat) {
    && Team(views, |s.mem|) && |s.cores| == |views| && i < |s.cores| && Working(views[i], s.cores[i])
    && (s.cores[i].pc.FromB? ==> s.cores[i].pc.k < views[i].K)
  }

  /** One access of core i. */
  ghost function Apply<T>(ar: Arith<T>, sc: Scale<T>, views: seq<View>, s: State<T>, i: nat): State<T>
    requires Enabled(views, s, i)
  {
    var v, c := views[i], s.cores[i];
    match c.pc
    case Begin => s.(cores := s.cores[i := c.(pc := FromA(0, Start(ar, sc, s.mem[v.c(c.m, c.n)])))])
    case FromA(k, acc) =>
      if k < v.K then s.(cores := s.cores[i := c.(pc := FromB(k, acc, s.mem[v.a(c.m, c.n, k)]))])
      else
        var w := v.c(c.m, c.n);
        State(s.mem[w := acc], s.cores[i := Advance(v, c.m, c.n)], s.stores + [w])
    case FromB(k, acc, x) => s.(cores := s.cores[i := c.(pc := FromA(k + 1, ar.mac(x, s.mem[v.b(k, c.n)], acc)))])
  }

  /** A run: the scheduler picks a core that is not through at every position. */
  ghost predicate Behaviour<T>(ar: Arith<T>, sc: Scale<T>, views: seq<View>, trace: seq<State<T>>, acts: seq<nat>) {
    && |trace| == |acts| + 1 && Init(views, trace[0])
    && forall t :: 0 <= t < |acts| ==> Enabled(views, trace[t], acts[t]) && trace[t + 1] == Apply(ar, sc, views, trace[t], acts[t])
  }

  ghost predicate Init<T>(views: seq<View>, s: State<T>) {
    && Team(views, |s.mem|) && |s.cores| == |views| && s.stores == []
    && forall i :: 0 <= i < |views| ==> s.cores[i] == Core(if views[i].N == 0 then views[i].M else 0, 0, Begin)
  }

  // ----- the invariant

  /** What a core has accumulated is the sum over the initial operands. */
  ghost predicate PcOk<T>(ar: Arith<T>, sc: Scale<T>, v: View, m0: seq<T>, c: Core<T>)
    requires Apart(v, |m0|)
  {
    && c.m <= v.M && (c.m < v.M ==> c.n < v.N) && (c.m == v.M ==> c.n == 0 && c.pc == Begin)
    && (c.m < v.M ==>
          match c.pc
          case Begin => true
          case FromA(k, acc) => k <= v.K && acc == Sum(ar, m0, v, c.m, c.n, Start(ar, sc, m0[v.c(c.m, c.n)]), k)
          case FromB(k, acc, x) =>
            k < v.K && acc == Sum(ar, m0, v, c.m, c.n, Start(ar, sc, m0[v.c(c.m, c.n)]), k) && x == m0[v.a(c.m, c.n, k)])
  }

  /** A core's entries hold their result up to where it is, and their old contents from there on. */
  ghost predicate PartOk<T>(ar: Arith<T>, sc: Scale<T>, v: View, m0: seq<T>, mem: seq<T>, c: Core<T>)
    requires Apart(v, |m0|) && |mem| == |m0|
  {
    forall m: nat, n: nat :: m < v.M && n < v.N ==>
      mem[v.c(m, n)] == if Before(m, n, c.m, c.n) then Entry(ar, m0, v, sc, m, n) else m0[v.c(m, n)]
  }

  /** No core has cell w of C. */
  ghost predicate Nobody(views: seq<View>, w: nat) { forall i :: 0 <= i < |views| ==> Outside(views[i], w) }

  /** Cell w is an entry that core c, whose part is v, has passed. */
  ghost predicate Passed<T>(v: View, c: Core<T>, w: nat) {
    exists m: nat, n: nat :: m < v.M && n < v.N && Before(m, n, c.m, c.n) && v.c(m, n) == w
  }

  /** The cells stored are those passed, each once. */
  ghost predicate StoresOk<T>(views: seq<View>, s: State<T>)
    requires |s.cores| == |views|
  {
    && (forall x, y :: 0 <= x < y < |s.stores| ==> s.stores[x] != s.stores[y])
    && forall w: nat :: w in s.stores <==> exists i :: 0 <= i < |views| && Passed(views[i], s.cores[i], w)
  }

  ghost predicate Inv<T>(ar: Arith<T>, sc: Scale<T>, views: seq<View>, m0: seq<T>, s: State<T>) {
    var inv :=
      && Team(views, |m0|) && |s.mem| == |m0| && |s.cores| == |views|
      && (forall i :: 0 <= i < |views| ==> PcOk(ar, sc, views[i], m0, s.cores[i]) && PartOk(ar, sc, views[i], m0, s.mem, s.cores[i]))
      && (forall w: nat :: w < |m0| && Nobody(views, w) ==> s.mem[w] == m0[w])
      && StoresOk(views, s);
    inv
  }

  lemma InitInv<T>(ar: Arith<T>, sc: Scale<T>, views: seq<View>, s: State<T>)
    requires Init(views, s)
    ensures Inv(ar, sc, views, s.mem, s)
  {}

  /** The operands of every core are the initial ones throughout. */
  lemma OperandsInitial<T>(ar: Arith<T>, sc: Scale<T>, views: seq<View>, m0: seq<T>, s: State<T>, i: nat, m: nat, n: nat, k: nat)
    requires Inv(ar, sc, views, m0, s) && i < |views| && m < views[i].M && n < views[i].N && k < views[i].K
    ensures views[i].a(m, n, k) < |m0| && s.mem[views[i].a(m, n, k)] == m0[views[i].a(m, n, k)]
    ensures views[i].b(k, n) < |m0| && s.mem[views[i].b(k, n)] == m0[views[i].b(k, n)]
  {
    var v := views[i];
    forall j | 0 <= j < |views| ensures Outside(views[j], v.a(m, n, k)) && Outside(views[j], v.b(k, n)) {
      assert Apart(views[j], |m0|);
      if j != i { assert Foreign(views[j], v); }
    }
    assert Nobody(views, v.a(m, n, k)) && Nobody(views, v.b(k, n));
  }

  /** A load changes only what its core knows. */
  lemma LoadPc<T>(ar: Arith<T>, sc: Scale<T>, views: seq<View>, m0: seq<T>, s: State<T>, i: nat)
    requires Inv(ar, sc, views, m0, s) && Enabled(views, s, i) && !(s.cores[i].pc.FromA? && s.cores[i].pc.k == views[i].K)
    ensures var s' := Apply(ar, sc, views, s, i);
            && s' == s.(cores := s'.cores) && |s'.cores| == |s.cores| && (forall j :: 0 <= j < |s.cores| && j != i ==> s'.cores[j] == s.cores[j])
            && s'.cores[i].m == s.cores[i].m && s'.cores[i].n == s.cores[i].n && PcOk(ar, sc, views[i], m0, s'.cores[i])
  {
    var v, c := views[i], s.cores[i];
    assert PcOk(ar, sc, v, m0, c) && PartOk(ar, sc, v, m0, s.mem, c);
    match c.pc
    case Begin => assert !Before(c.m, c.n, c.m, c.n);
    case FromA(k, _) => OperandsInitial(ar, sc, views, m0, s, i, c.m, c.n, k);
    case FromB(k, _, _) => OperandsInitial(ar, sc, views, m0, s, i, c.m, c.n, k);
  }

  lemma LoadStores<T>(views: seq<View>, s: State<T>, s': State<T>)
    requires |s.cores| == |s'.cores| == |views| && StoresOk(views, s) && s'.stores == s.stores
    requires forall j :: 0 <= j < |views| ==> s'.cores[j].m == s.cores[j].m && s'.cores[j].n == s.cores[j].n
    ensures StoresOk(views, s')
  {
    forall w: nat ensures w in s'.stores <==> exists j :: 0 <= j < |views| && Passed(views[j], s'.cores[j], w) {
      forall j | 0 <= j < |views| ensures Passed(views[j], s'.cores[j], w) <==> Passed(views[j], s.cores[j], w) {}
    }
  }

  lemma LoadInv<T>(ar: Arith<T>, sc: Scale<T>, views: seq<View>, m0: seq<T>, s: State<T>, i: nat)
    requires Inv(ar, sc, views, m0, s) && Enabled(views, s, i) && !(s.cores[i].pc.FromA? && s.cores[i].pc.k == views[i].K)
    ensures Inv(ar, sc, views, m0, Apply(ar, sc, views, s, i))
  {
    LoadPc(ar, sc, views, m0, s, i);
    var s' := Apply(ar, sc, views, s, i);
    LoadStores(views, s, s');
    forall j | 0 <= j < |views| ensures PcOk(ar, sc, views[j], m0, s'.cores[j]) && PartOk(ar, sc, views[j], m0, s'.mem, s'.cores[j]) {
      assert PcOk(ar, sc, views[j], m0, s.cores[j]) && PartOk(ar, sc, views[j], m0, s.mem, s.cores[j]);
    }
  }

  /** The entry that core i stores is the one wanted. */
  lemma StoredValue<T>(ar: Arith<T>, sc: Scale<T>, views: seq<View>, m0: seq<T>, s: State<T>, i: nat)
    requires Inv(ar, sc, views, m0, s) && Enabled(views, s, i) && s.cores[i].pc.FromA? && s.cores[i].pc.k == views[i].K
    ensures Apart(views[i], |m0|) && PcOk(ar, sc, views[i], m0, s.cores[i])
    ensures s.cores[i].pc.acc == Entry(ar, m0, views[i], sc, s.cores[i].m, s.cores[i].n)
  {}

  lemma AdvanceIs<T>(v: View, m: nat, n: nat, i: nat, j: nat)
    requires m < v.M && n < v.N && i < v.M && j < v.N
    ensures var c: Core<T> := Advance(v, m, n); Before(i, j, c.m, c.n) <==> Before(i, j, m, n) || (i == m && j == n)
  {}

  /** The part of the core that stores, and of any other. */
  lemma StorePart<T>(ar: Arith<T>, sc: Scale<T>, views: seq<View>, m0: seq<T>, s: State<T>, i: nat, j: nat)
    requires Inv(ar, sc, views, m0, s) && Enabled(views, s, i) && s.cores[i].pc.FromA? && s.cores[i].pc.k == views[i].K && j < |views|
    ensures var s' := Apply(ar, sc, views, s, i);
            && |s'.mem| == |m0| && |s'.cores| == |views| && Apart(views[j], |m0|)
            && PcOk(ar, sc, views[j], m0, s'.cores[j]) && PartOk(ar, sc, views[j], m0, s'.mem, s'.cores[j])
  {
    StoredValue(ar, sc, views, m0, s, i);
    var v, c := views[i], s.cores[i];
    assert PcOk(ar, sc, views[j], m0, s.cores[j]) && PartOk(ar, sc, views[j], m0, s.mem, s.cores[j]);
    if j == i {
      forall m: nat, n: nat | m < v.M && n < v.N
        ensures var d: Core<T> := Advance(v, c.m, c.n);
                s.mem[v.c(c.m, c.n) := c.pc.acc][v.c(m, n)] == if Before(m, n, d.m, d.n) then Entry(ar, m0, v, sc, m, n) else m0[v.c(m, n)]
      {
        AdvanceIs<T>(v, c.m, c.n, m, n);
      }
    } else {
      assert Foreign(v, views[j]);
    }
  }

  /** Core i has not stored there before, and nobody else has. */
  lemma StoreNew<T>(ar: Arith<T>, sc: Scale<T>, views: seq<View>, m0: seq<T>, s: State<T>, i: nat)
    requires Inv(ar, sc, views, m0, s) && Enabled(views, s, i)
    ensures views[i].c(s.cores[i].m, s.cores[i].n) !in s.stores
  {
    var v, c := views[i], s.cores[i];
    var w := v.c(c.m, c.n);
    forall j | 0 <= j < |views| ensures !Passed(views[j], s.cores[j], w) {
      assert Apart(v, |m0|);
      if j != i { assert Foreign(v, views[j]); }
    }
  }

  lemma StorePassed<T>(ar: Arith<T>, sc: Scale<T>, views: seq<View>, m0: seq<T>, s: State<T>, i: nat, w: nat)
    requires Inv(ar, sc, views, m0, s) && Enabled(views, s, i) && s.cores[i].pc.FromA? && s.cores[i].pc.k == views[i].K
    ensures var s' := Apply(ar, sc, views, s, i);
            Passed(views[i], s'.cores[i], w) <==> Passed(views[i], s.cores[i], w) || w == views[i].c(s.cores[i].m, s.cores[i].n)
  {
    var v, c := views[i], s.cores[i];
    forall m: nat, n: nat | m < v.M && n < v.N
      ensures var d: Core<T> := Advance(v, c.m, c.n); Before(m, n, d.m, d.n) <==> Before(m, n, c.m, c.n) || (m == c.m && n == c.n)
    {
      AdvanceIs<T>(v, c.m, c.n, m, n);
    }
    if w == v.c(c.m, c.n) {
      AdvanceIs<T>(v, c.m, c.n, c.m, c.n);
    }
  }

  lemma StoreStores<T>(ar: Arith<T>, sc: Scale<T>, views: seq<View>, m0: seq<T>, s: State<T>, i: nat)
    requires Inv(ar, sc, views, m0, s) && Enabled(views, s, i) && s.cores[i].pc.FromA? && s.cores[i].pc.k == views[i].K
    ensures StoresOk(views, Apply(ar, sc, views, s, i))
  {
    var s' := Apply(ar, sc, views, s, i);
    StoreNew(ar, sc, views, m0, s, i);
    forall w: nat ensures w in s'.stores <==> exists j :: 0 <= j < |views| && Passed(views[j], s'.cores[j], w) {
      StorePassed(ar, sc, views, m0, s, i, w);
      if w in s'.stores {
        if w in s.stores {
          var j :| 0 <= j < |views| && Passed(views[j], s.cores[j], w);
          assert Passed(views[j], s'.cores[j], w);
        } else {
          assert Passed(views[i], s'.cores[i], w);
        }
      }
      if j :| 0 <= j < |views| && Passed(views[j], s'.cores[j], w) {
        assert j != i ==> Passed(views[j], s.cores[j], w);
      }
    }
  }

  lemma StoreInv<T>(ar: Arith<T>, sc: Scale<T>, views: seq<View>, m0: seq<T>, s: State<T>, i: nat)
    requires Inv(ar, sc, views, m0, s) && Enabled(views, s, i) && s.cores[i].pc.FromA? && s.cores[i].pc.k == views[i].K
    ensures Inv(ar, sc, views, m0, Apply(ar, sc, views, s, i))
  {
    var s' := Apply(ar, sc, views, s, i);
    forall j | 0 <= j < |views| ensures PcOk(ar, sc, views[j], m0, s'.cores[j]) && PartOk(ar, sc, views[j], m0, s'.mem, s'.cores[j]) {
      StorePart(ar, sc, views, m0, s, i, j);
    }
    StoreStores(ar, sc, views, m0, s, i);
    forall w: nat | w < |m0| && Nobody(views, w) ensures s'.mem[w] == m0[w] {
      assert Outside(views[i], w);
    }
  }

  lemma {:induction false} BehaviourInv<T>(ar: Arith<T>, sc: Scale<T>, views: seq<View>, trace: seq<State<T>>, acts: seq<nat>, t: nat)
    requires Behaviour(ar, sc, views, trace, acts) && t < |trace|
    ensures Inv(ar, sc, views, trace[0].mem, trace[t])
  {
    if t == 0 {
      InitInv(ar, sc, views, trace[0]);
    } else {
      BehaviourInv(ar, sc, views, trace, acts, t - 1);
      var s, i := trace[t - 1], acts[t - 1];
      if s.cores[i].pc.FromA? && s.cores[i].pc.k == views[i].K {
        StoreInv(ar, sc, views, trace[0].mem, s, i);
      } else {
        LoadInv(ar, sc, views, trace[0].mem, s, i);
      }
    }
  }

  // ----- the end

  predicate Through<T>(views: seq<View>, s: State<T>)
    requires |s.cores| == |views|
  {
    forall i :: 0 <= i < |views| ==> s.cores[i].m == views[i].M
  }

  /** In every interleaving: when all cores are through, every entry of every part is the one computed from the initial
      memory and has been stored exactly once, and nothing else has changed or been stored. */
  lemma TeamResult<T>(ar: Arith<T>, sc: Scale<T>, views: seq<View>, trace: seq<State<T>>, acts: seq<nat>, t: nat)
    requires Behaviour(ar, sc, views, trace, acts) && t < |trace| && |trace[t].cores| == |views| && Through(views, trace[t])
    ensures var m0, s := trace[0].mem, trace[t];
            && |s.mem| == |m0| && Team(views, |m0|)
            && (forall i, m: nat, n: nat :: 0 <= i < |views| && m < views[i].M && n < views[i].N ==>
                  s.mem[views[i].c(m, n)] == Entry(ar, m0, views[i], sc, m, n))
            && (forall w: nat :: w < |m0| && Nobody(views, w) ==> s.mem[w] == m0[w])
            && (forall x, y :: 0 <= x < y < |s.stores| ==> s.stores[x] != s.stores[y])
            && (forall w: nat :: w in s.stores <==> !Nobody(views, w))
  {
    BehaviourInv(ar, sc, views, trace, acts, t);
    var m0, s := trace[0].mem, trace[t];
    forall i, m: nat, n: nat | 0 <= i < |views| && m < views[i].M && n < views[i].N
      ensures s.mem[views[i].c(m, n)] == Entry(ar, m0, views[i], sc, m, n)
    {
      assert PartOk(ar, sc, views[i], m0, s.mem, s.cores[i]);
    }
    forall w: nat ensures w in s.stores <==> !Nobody(views, w) {
      StoredBySome(views, s, w);
    }
  }

  lemma StoredBySome<T>(views: seq<View>, s: State<T>, w: nat)
    requires |s.cores| == |views| && StoresOk(views, s) && Through(views, s)
    ensures w in s.stores <==> !Nobody(views, w)
  {
    if !Nobody(views, w) {
      var i :| 0 <= i < |views| && !Outside(views[i], w);
      var m: nat, n: nat :| m < views[i].M && n < views[i].N && views[i].c(m, n) == w;
      assert Passed(views[i], s.cores[i], w);
    }
  }

  // ----- it is reached

  /** The accesses of the entries after (m, n). */
  function After(v: View, m: nat, n: nat): nat
    requires m < v.M && n < v.N
    decreases v.M - m, v.N - n
  {
    if n + 1 < v.N then 2 * v.K + 2 + After(v, m, n + 1) else if m + 1 < v.M then 2 * v.K + 2 + After(v, m + 1, 0) else 0
  }

  /** The accesses a core still makes for its entry. */
  function Now<T>(v: View, pc: Pc<T>): nat {
    match pc
    case Begin => 2 * v.K + 2
    case FromA(k, _) => if k <= v.K then 2 * (v.K - k) + 1 else 1
    case FromB(k, _, _) => if k < v.K then 2 * (v.K - k) else 1
  }

  function CoreLeft<T>(v: View, c: Core<T>): nat { if Working(v, c) then Now(v, c.pc) + After(v, c.m, c.n) else 0 }

  /** The accesses the first n cores still make. */
  function Left<T>(views: seq<View>, cores: seq<Core<T>>, n: nat): nat
    requires n <= |cores| == |views|
  {
    if n == 0 then 0 else Left(views, cores, n - 1) + CoreLeft(views[n - 1], cores[n - 1])
  }

  lemma {:induction false} LeftUpdate<T>(views: seq<View>, cores: seq<Core<T>>, i: nat, c: Core<T>, n: nat)
    requires i < |cores| == |views| && n <= |cores|
    ensures Left(views, cores[i := c], n) == Left(views, cores, n) + if i < n then CoreLeft(views[i], c) - CoreLeft(views[i], cores[i]) else 0
  {
    if n == 0 {
    } else {
      LeftUpdate(views, cores, i, c, n - 1);
    }
  }

  lemma CoreFalls<T>(ar: Arith<T>, sc: Scale<T>, views: seq<View>, s: State<T>, i: nat)
    requires Enabled(views, s, i) && (s.cores[i].pc.FromA? ==> s.cores[i].pc.k <= views[i].K)
    ensures var s' := Apply(ar, sc, views, s, i);
            |s'.cores| == |s.cores| && CoreLeft(views[i], s'.cores[i]) + 1 == CoreLeft(views[i], s.cores[i]) && s'.cores == s.cores[i := s'.cores[i]]
  {}

  /** Every access of a run is one of those left, so every run is as long as it can be, and one that cannot be continued has
      come to the end. */
  lemma {:induction false} RunsEnd<T>(ar: Arith<T>, sc: Scale<T>, views: seq<View>, trace: seq<State<T>>, acts: seq<nat>, t: nat)
    requires Behaviour(ar, sc, views, trace, acts) && t <= |acts|
    ensures |trace[t].cores| == |trace[|acts|].cores| == |views|
    ensures |acts| - t + Left(views, trace[|acts|].cores, |views|) == Left(views, trace[t].cores, |views|)
    ensures (forall i: nat :: !Enabled(views, trace[|acts|], i)) <==> Through(views, trace[|acts|])
    decreases |acts| - t
  {
    BehaviourInv(ar, sc, views, trace, acts, t);
    var s := trace[t];
    if t < |acts| {
      var i := acts[t];
      assert PcOk(ar, sc, views[i], trace[0].mem, s.cores[i]);
      CoreFalls(ar, sc, views, s, i);
      LeftUpdate(views, s.cores, i, trace[t + 1].cores[i], |views|);
      RunsEnd(ar, sc, views, trace, acts, t + 1);
    } else {
      forall i: nat | i < |views| ensures Enabled(views, s, i) <==> s.cores[i].m != views[i].M {
        assert PcOk(ar, sc, views[i], trace[0].mem, s.cores[i]);
      }
    }
  }

  // ----- the cores of a tile

  /** The parts of the compute cores of a plan. */
  ghost function Parts(p: TiledGemm.Plan): (r: seq<View>)
    ensures |r| == p.cores && forall id :: 0 <= id < p.cores ==> r[id] == TiledGemm.CoreView(p, id)
  {
    seq(p.cores, id requires 0 <= id < p.cores => TiledGemm.CoreView(p, id))
  }

  lemma PartsForeign(p: TiledGemm.Plan, local: nat, id: nat, id': nat)
    requires TiledGemm.Local(p, local) && id < p.cores && id' < p.cores && id != id'
    ensures Foreign(TiledGemm.CoreView(p, id), TiledGemm.CoreView(p, id'))
  {
    var v, w := TiledGemm.CoreView(p, id), TiledGemm.CoreView(p, id');
    TiledGemm.CoreOutside(p, id, local);
    forall m: nat, n: nat, i: nat, j: nat | m < v.M && n < v.N && i < w.M && j < w.N ensures v.c(m, n) != w.c(i, j) {
      assert Outside(v, p.lc(p.row(id', i), j));
    }
    forall m: nat, n: nat, i: nat, j: nat, k: nat | m < v.M && n < v.N && i < w.M && j < w.N && k < w.K ensures v.c(m, n) != w.a(i, j, k) {
      assert Outside(v, p.la(p.row(id', i), k));
    }
    forall m: nat, n: nat, k: nat, j: nat | m < v.M && n < v.N && k < w.K && j < w.N ensures v.c(m, n) != w.b(k, j) {
      assert Outside(v, p.lb(k, j));
    }
  }

  lemma PartsTeam(p: TiledGemm.Plan, local: nat)
    requires TiledGemm.Local(p, local)
    ensures Team(Parts(p), local)
  {
    forall id: nat | id < p.cores ensures Apart(Parts(p)[id], local) { TiledGemm.CoreApart(p, id, local); }
    forall id: nat, id': nat | id < p.cores && id' < p.cores && id != id' ensures Foreign(Parts(p)[id], Parts(p)[id']) {
      PartsForeign(p, local, id, id');
    }
  }

  /** One entry of a tile when all cores are through. */
  lemma TileEntry<T>(ar: Arith<T>, m0: seq<T>, mem: seq<T>, a: seq<T>, b: seq<T>, p: TiledGemm.Plan, mt: nat, kt: nat, nt: nat, beta: T,
                     start: (nat, nat) -> T, id: nat, r: nat, j: nat)
    requires |mem| == |m0| && TiledGemm.Local(p, |m0|) && TiledGemm.Reads(p, |a|, |b|) && mt < p.mTiles && kt < p.kTiles && nt < p.nTiles
    requires TiledGemm.At(p, kt, 0) <= TiledGemm.At(p, kt, p.fk) <= p.kTiles * p.fk && id < p.cores && r < p.share && j < p.fn
    requires TiledGemm.Loaded(m0, a, b, p, mt, kt, nt) && TiledGemm.Ready(ar, m0, a, b, p, mt, kt, nt, beta, start)
    requires Apart(TiledGemm.CoreView(p, id), |m0|)
    requires mem[p.lc(p.row(id, r), j)] == Entry(ar, m0, TiledGemm.CoreView(p, id), Times(beta), r, j)
    ensures var i := p.row(id, r);
            mem[p.lc(i, j)] == TiledGemm.Acc(ar, a, b, p, mt, i, nt, j, start(i, j), TiledGemm.At(p, kt, p.fk))
  {
    var i := p.row(id, r);
    assert TiledGemm.CoreView(p, id).c(r, j) == p.lc(i, j);
    TiledGemm.SumContinues(ar, m0, a, b, p, mt, kt, nt, id, r, j, start(i, j), p.fk);
  }

  /** The compute phase of a tile in any interleaving of the cores' accesses: the same promise as for the cores one after the
      other. */
  lemma TileResult<T>(ar: Arith<T>, a: seq<T>, b: seq<T>, p: TiledGemm.Plan, mt: nat, kt: nat, nt: nat, beta: T, start: (nat, nat) -> T,
                      trace: seq<State<T>>, acts: seq<nat>, t: nat)
    requires Behaviour(ar, Times(beta), Parts(p), trace, acts) && t < |trace| && |trace[t].cores| == p.cores && Through(Parts(p), trace[t])
    requires TiledGemm.Local(p, |trace[0].mem|) && TiledGemm.Reads(p, |a|, |b|) && mt < p.mTiles && kt < p.kTiles && nt < p.nTiles
    requires TiledGemm.At(p, kt, 0) <= TiledGemm.At(p, kt, p.fk) <= p.kTiles * p.fk
    requires TiledGemm.Loaded(trace[0].mem, a, b, p, mt, kt, nt) && TiledGemm.Ready(ar, trace[0].mem, a, b, p, mt, kt, nt, beta, start)
    ensures |trace[t].mem| == |trace[0].mem|
    ensures TiledGemm.Partial(ar, trace[t].mem, a, b, p, mt, nt, start, TiledGemm.At(p, kt, p.fk))
    ensures TiledGemm.SpareKept(trace[t].mem, trace[0].mem, p)
  {
    var m0, mem := trace[0].mem, trace[t].mem;
    TeamResult(ar, Times(beta), Parts(p), trace, acts, t);
    forall i: nat, j: nat | i < p.rows && j < p.fn
      ensures mem[p.lc(i, j)] == TiledGemm.Acc(ar, a, b, p, mt, i, nt, j, start(i, j), TiledGemm.At(p, kt, p.fk))
    {
      assert TiledGemm.Owned(p, i);
      var id: nat, r: nat :| id < p.cores && r < p.share && p.row(id, r) == i;
      assert Parts(p)[id].c(r, j) == p.lc(i, j) && Apart(Parts(p)[id], |m0|);
      TileEntry(ar, m0, mem, a, b, p, mt, kt, nt, beta, start, id, r, j);
    }
    forall i: nat, j: nat | p.rows <= i < p.fm && j < p.fn ensures mem[p.lc(i, j)] == m0[p.lc(i, j)] { SpareNobodys(p, |m0|, i, j); }
  }

  lemma SpareNobodys(p: TiledGemm.Plan, local: nat, i: nat, j: nat)
    requires TiledGemm.Local(p, local) && p.rows <= i < p.fm && j < p.fn
    ensures p.lc(i, j) < local && Nobody(Parts(p), p.lc(i, j))
  {
    assert TiledGemm.Tile(p).c(i, j) == p.lc(i, j);
    forall id: nat | id < p.cores ensures Outside(Parts(p)[id], p.lc(i, j)) { TiledGemm.CoreOutside(p, id, local); }
  }
}
