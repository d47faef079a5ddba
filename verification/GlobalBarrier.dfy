/** The global barrier over clusters and the all-to-all reduction. Each cluster has one data-mover core;
    a hardware barrier holds the cores of one cluster; between two hardware barriers the data-mover cores
    meet in the software barrier of module Barrier. Every core makes any number of barrier calls; its call
    number q (from 0) is the reduction, which adds the core's value first and reads the result last. */
module GlobalBarrier {
  import opened Counting
  import opened Arithmetic
  import opened Wrappers
  import Barrier

  datatype Pc = Out | First | Between | Second

  datatype Core = Core(cluster: nat, pc: Pc, entered: nat, left: nat, value: nat, added: bool, got: Option<nat>)

  /** How often the two hardware barriers of a cluster have opened. */
  datatype Gate = Gate(first: nat, second: nat)

  /** `dm[k]` is the data-mover core of cluster k, and thread k of the software barrier. */
  datatype State = State(cores: seq<Core>, dm: seq<nat>, gates: seq<Gate>, soft: Barrier.State, result: nat, q: nat)

  datatype Act = Add(c: nat) | Enter(c: nat) | OpenFirst(k: nat) | DmEnter(k: nat) | DmStep(k: nat)
               | Arrive(c: nat) | OpenSecond(k: nat) | Read(c: nat)

  predicate Shape(s: State) {
    && |s.dm| == |s.gates| == |s.soft.threads|
    && (forall c :: 0 <= c < |s.cores| ==> s.cores[c].cluster < |s.gates|)
    && (forall k :: 0 <= k < |s.dm| ==> s.dm[k] < |s.cores| && s.cores[s.dm[k]].cluster == k)
  }

  predicate AllAt(s: State, k: nat, pc: Pc) {
    forall c :: 0 <= c < |s.cores| && s.cores[c].cluster == k ==> s.cores[c].pc == pc
  }

  /** The software part of the data-mover core of cluster k is over for this call. */
  predicate SoftDone(s: State, k: nat)
    requires k < |s.gates| == |s.soft.threads|
  {
    s.soft.threads[k].pc == Barrier.Outside && s.soft.threads[k].left == s.gates[k].first
  }

  predicate Enabled(s: State, a: Act) {
    && Shape(s)
    && match a
       case Add(c) => c < |s.cores| && s.cores[c].pc == Out && s.cores[c].entered == s.q && !s.cores[c].added
       case Enter(c) =>
         && c < |s.cores| && s.cores[c].pc == Out
         && (s.cores[c].entered == s.q ==> s.cores[c].added)
         && (s.cores[c].entered == s.q + 1 ==> s.cores[c].got.Some?)
       case OpenFirst(k) => k < |s.gates| && AllAt(s, k, First)
       case DmEnter(k) =>
         && k < |s.gates| && s.cores[s.dm[k]].pc == Between && !SoftDone(s, k)
         && Barrier.Enabled(s.soft, Barrier.Enter(k))
       case DmStep(k) => k < |s.gates| && Barrier.Enabled(s.soft, Barrier.Step(k))
       case Arrive(c) =>
         && c < |s.cores| && s.cores[c].pc == Between
         && (s.dm[s.cores[c].cluster] == c ==> SoftDone(s, s.cores[c].cluster))
       case OpenSecond(k) => k < |s.gates| && AllAt(s, k, Second)
       case Read(c) => c < |s.cores| && s.cores[c].pc == Out && s.cores[c].left == s.q + 1 && s.cores[c].got.None?
  }

  /** Opening a hardware barrier lets all cores of cluster k go at once. */
  function Release(cores: seq<Core>, k: nat, pc: Pc): (r: seq<Core>)
    ensures |r| == |cores|
    ensures forall c :: 0 <= c < |cores| ==>
              r[c] == if cores[c].cluster != k then cores[c]
                      else cores[c].(pc := pc, left := if pc == Out then cores[c].left + 1 else cores[c].left)
  {
    seq(|cores|, c requires 0 <= c < |cores| =>
      if cores[c].cluster != k then cores[c]
      else cores[c].(pc := pc, left := if pc == Out then cores[c].left + 1 else cores[c].left))
  }

  function Apply(s: State, a: Act): State
    requires Enabled(s, a)
  {
    match a
    case Add(c) =>
      s.(result := (s.result + s.cores[c].value) % WORD, cores := s.cores[c := s.cores[c].(added := true)])
    case Enter(c) => s.(cores := s.cores[c := s.cores[c].(pc := First, entered := s.cores[c].entered + 1)])
    case OpenFirst(k) =>
      s.(cores := Release(s.cores, k, Between), gates := s.gates[k := s.gates[k].(first := s.gates[k].first + 1)])
    case DmEnter(k) => s.(soft := Barrier.Apply(s.soft, Barrier.Enter(k)))
    case DmStep(k) => s.(soft := Barrier.Apply(s.soft, Barrier.Step(k)))
    case Arrive(c) => s.(cores := s.cores[c := s.cores[c].(pc := Second)])
    case OpenSecond(k) =>
      s.(cores := Release(s.cores, k, Out), gates := s.gates[k := s.gates[k].(second := s.gates[k].second + 1)])
    case Read(c) => s.(cores := s.cores[c := s.cores[c].(got := Some(s.result))])
  }

  predicate Init(s: State) {
    && Shape(s) && Barrier.Init(s.soft) && s.result == 0
    && (forall k :: 0 <= k < |s.gates| ==> s.gates[k] == Gate(0, 0))
    && forall c :: 0 <= c < |s.cores| ==>
         && s.cores[c].pc == Out && s.cores[c].entered == 0 && s.cores[c].left == 0
         && !s.cores[c].added && s.cores[c].got.None?
  }

  ghost predicate Behaviour(trace: seq<State>, acts: seq<Act>) {
    && |trace| == |acts| + 1 && Init(trace[0])
    && forall j :: 0 <= j < |acts| ==> Enabled(trace[j], acts[j]) && trace[j + 1] == Apply(trace[j], acts[j])
  }

  // ----- the invariant

  predicate CoreOk(core: Core, g: Gate) {
    match core.pc
    case Out => core.entered == core.left == g.first == g.second
    case First => core.entered == g.first + 1 && core.left == g.first == g.second
    case _ => core.entered == g.first == g.second + 1 && core.left == g.second
  }

  /** Thread k of the software barrier against the gates of its cluster. */
  predicate SoftOk(t: Barrier.Thread, g: Gate, dm: Core) {
    && g.second <= t.left && t.entered <= g.first <= g.second + 1
    && (g.first == g.second ==> t.pc == Barrier.Outside)
    && (t.pc != Barrier.Outside ==> dm.pc == Between)
    && (dm.pc == Second ==> t.left == g.first)
  }

  predicate ReductionOk(core: Core, q: nat, all: nat) {
    && (core.entered > q ==> core.added)
    && (core.got.Some? ==> core.entered > q && core.got.value == all)
  }

  function Value(core: Core): nat { core.value }
  function Contribution(core: Core): nat { if core.added then core.value else 0 }

  predicate CoresOk(s: State)
    requires Shape(s)
  {
    forall c :: 0 <= c < |s.cores| ==> CoreOk(s.cores[c], s.gates[s.cores[c].cluster])
  }

  predicate ThreadsOk(s: State)
    requires Shape(s)
  {
    forall k :: 0 <= k < |s.gates| ==> SoftOk(s.soft.threads[k], s.gates[k], s.cores[s.dm[k]])
  }

  predicate SumsOk(s: State) {
    && s.result == Total(Contribution, s.cores) % WORD
    && forall c :: 0 <= c < |s.cores| ==> ReductionOk(s.cores[c], s.q, Total(Value, s.cores) % WORD)
  }

  ghost predicate Layout(s: State) {
    var layout := Shape(s) && Barrier.Inv(s.soft) && CoresOk(s) && ThreadsOk(s);
    layout
  }

  ghost predicate Inv(s: State) {
    var inv := Layout(s) && SumsOk(s);
    inv
  }

  lemma {:induction false} TotalSame<T>(f: T -> nat, g: T -> nat, s: seq<T>, s': seq<T>)
    requires |s| == |s'| && forall i :: 0 <= i < |s| ==> f(s[i]) == g(s'[i])
    ensures Total(f, s) == Total(g, s')
  {
    if s == [] {
    } else {
      var n := |s| - 1;
      TotalSame(f, g, s[..n], s'[..n]);
    }
  }

  lemma {:induction false} TotalZero(s: seq<Core>)
    requires forall i :: 0 <= i < |s| ==> !s[i].added
    ensures Total(Contribution, s) == 0
  {
    if s == [] {
    } else {
      TotalZero(s[..|s| - 1]);
    }
  }

  lemma InitInv(s: State)
    requires Init(s)
    ensures Inv(s)
  {
    Barrier.InitInv(s.soft);
    TotalZero(s.cores);
  }

  /** Nobody has left its r-th call of the global barrier unless every core of every cluster has made its r-th call. */
  lemma Separation(s: State, c: nat, d: nat)
    requires Layout(s) && c < |s.cores| && d < |s.cores|
    ensures s.cores[c].left <= s.cores[d].entered
  {
    var k, l := s.cores[c].cluster, s.cores[d].cluster;
    assert CoreOk(s.cores[c], s.gates[k]) && CoreOk(s.cores[d], s.gates[l]);
    assert SoftOk(s.soft.threads[k], s.gates[k], s.cores[s.dm[k]]);
    assert SoftOk(s.soft.threads[l], s.gates[l], s.cores[s.dm[l]]);
    Barrier.Separation(s.soft, l, k);
  }

  /** One core changes, but not its cluster nor its value. */
  lemma ValuesKept(s: seq<Core>, c: nat, x: Core)
    requires c < |s| && x.value == s[c].value
    ensures Total(Value, s[c := x]) == Total(Value, s)
    ensures x.added == s[c].added ==> Total(Contribution, s[c := x]) == Total(Contribution, s)
  {
    TotalUpdate(Value, s, c, x);
    TotalUpdate(Contribution, s, c, x);
  }

  lemma WrappedSum(t: int, v: int)
    ensures (t % WORD + v) % WORD == (t + v) % WORD
  {}

  lemma AddSums(s: State, c: nat)
    requires SumsOk(s) && Enabled(s, Add(c))
    ensures SumsOk(Apply(s, Add(c)))
  {
    var x := s.cores[c].(added := true);
    var t := Total(Contribution, s.cores);
    ValuesKept(s.cores, c, x);
    TotalUpdate(Contribution, s.cores, c, x);
    WrappedSum(t, x.value);
    assert ReductionOk(s.cores[c], s.q, Total(Value, s.cores) % WORD);
  }

  lemma ReadSums(s: State, c: nat)
    requires Inv(s) && Enabled(s, Read(c))
    ensures SumsOk(Apply(s, Read(c)))
  {
    ValuesKept(s.cores, c, s.cores[c].(got := Some(s.result)));
    forall d | 0 <= d < |s.cores| ensures s.cores[d].added {
      Separation(s, c, d);
      assert ReductionOk(s.cores[d], s.q, Total(Value, s.cores) % WORD);
    }
    TotalSame(Contribution, Value, s.cores, s.cores);
    assert CoreOk(s.cores[c], s.gates[s.cores[c].cluster]);
  }

  lemma MoveSums(s: State, a: Act)
    requires SumsOk(s) && Enabled(s, a) && (a.Enter? || a.Arrive?)
    ensures SumsOk(Apply(s, a))
  {
    ValuesKept(s.cores, a.c, Apply(s, a).cores[a.c]);
    assert ReductionOk(s.cores[a.c], s.q, Total(Value, s.cores) % WORD);
  }

  /** One core takes one of its own acts: the gates, and what binds the cores to them, stay as they are. */
  lemma CoreLayout(s: State, a: Act)
    requires Layout(s) && Enabled(s, a) && (a.Enter? || a.Arrive?)
    ensures Layout(Apply(s, a))
  {
    var s' := Apply(s, a);
    var k0 := s.cores[a.c].cluster;
    assert CoreOk(s.cores[a.c], s.gates[k0]) && CoreOk(s'.cores[a.c], s'.gates[k0]);
    forall k | 0 <= k < |s.gates| ensures SoftOk(s'.soft.threads[k], s'.gates[k], s'.cores[s'.dm[k]]) {
      assert SoftOk(s.soft.threads[k], s.gates[k], s.cores[s.dm[k]]);
    }
  }

  /** Adding and reading move no core. */
  lemma ReductionLayout(s: State, a: Act)
    requires Layout(s) && Enabled(s, a) && (a.Add? || a.Read?)
    ensures Layout(Apply(s, a))
  {
    SamePlaces(s, Apply(s, a));
  }

  lemma SamePlaces(s: State, s': State)
    requires Layout(s) && s' == s.(result := s'.result, cores := s'.cores) && |s'.cores| == |s.cores|
    requires forall c :: 0 <= c < |s.cores| ==> s'.cores[c] == s.cores[c].(added := s'.cores[c].added, got := s'.cores[c].got)
    ensures Layout(s')
  {
    assert CoresOk(s') && ThreadsOk(s');
  }

  lemma OpenSums(s: State, a: Act)
    requires SumsOk(s) && Enabled(s, a) && (a.OpenFirst? || a.OpenSecond?)
    ensures SumsOk(Apply(s, a))
  {
    var s' := Apply(s, a);
    TotalSame(Value, Value, s.cores, s'.cores);
    TotalSame(Contribution, Contribution, s.cores, s'.cores);
    forall c | 0 <= c < |s.cores| ensures ReductionOk(s'.cores[c], s.q, Total(Value, s.cores) % WORD) {
      assert ReductionOk(s.cores[c], s.q, Total(Value, s.cores) % WORD);
    }
  }

  lemma OpenCores(s: State, a: Act)
    requires Layout(s) && Enabled(s, a) && (a.OpenFirst? || a.OpenSecond?)
    ensures Shape(Apply(s, a)) && CoresOk(Apply(s, a))
  {
    var s' := Apply(s, a);
    forall c | 0 <= c < |s.cores| ensures CoreOk(s'.cores[c], s'.gates[s'.cores[c].cluster]) {
      OpenCore(s, a, c);
    }
  }

  lemma OpenCore(s: State, a: Act, c: nat)
    requires Layout(s) && Enabled(s, a) && (a.OpenFirst? || a.OpenSecond?) && c < |s.cores|
    ensures var s' := Apply(s, a);
            s'.cores[c].cluster == s.cores[c].cluster < |s'.gates| && CoreOk(s'.cores[c], s'.gates[s'.cores[c].cluster])
  {
    assert CoreOk(s.cores[c], s.gates[s.cores[c].cluster]);
  }

  /** One thread of the software barrier when its gate opens, or another one does. */
  lemma OpenThread(s: State, a: Act, k: nat)
    requires Layout(s) && Enabled(s, a) && (a.OpenFirst? || a.OpenSecond?) && k < |s.gates|
    ensures var s' := Apply(s, a); SoftOk(s.soft.threads[k], s'.gates[k], s'.cores[s.dm[k]])
  {
    assert SoftOk(s.soft.threads[k], s.gates[k], s.cores[s.dm[k]]);
    assert CoreOk(s.cores[s.dm[k]], s.gates[k]);
    assert Barrier.ThreadOk(s.soft.round, s.soft.iteration, s.soft.threads[k]);
  }

  lemma OpenLayout(s: State, a: Act)
    requires Layout(s) && Enabled(s, a) && (a.OpenFirst? || a.OpenSecond?)
    ensures Layout(Apply(s, a))
  {
    OpenCores(s, a);
    forall k | 0 <= k < |s.gates| ensures SoftOk(s.soft.threads[k], Apply(s, a).gates[k], Apply(s, a).cores[s.dm[k]]) {
      OpenThread(s, a, k);
    }
  }

  function SoftAct(a: Act): Barrier.Act
    requires a.DmEnter? || a.DmStep?
  {
    if a.DmEnter? then Barrier.Enter(a.k) else Barrier.Step(a.k)
  }

  lemma SoftThread(s: State, a: Act, k: nat)
    requires Layout(s) && Enabled(s, a) && (a.DmEnter? || a.DmStep?) && k < |s.gates|
    ensures |Barrier.Apply(s.soft, SoftAct(a)).threads| == |s.soft.threads|
    ensures SoftOk(Barrier.Apply(s.soft, SoftAct(a)).threads[k], s.gates[k], s.cores[s.dm[k]])
  {
    assert SoftOk(s.soft.threads[k], s.gates[k], s.cores[s.dm[k]]);
    assert CoreOk(s.cores[s.dm[k]], s.gates[k]);
    assert Barrier.ThreadOk(s.soft.round, s.soft.iteration, s.soft.threads[k]);
  }

  lemma SoftInv(s: State, a: Act)
    requires Inv(s) && Enabled(s, a) && (a.DmEnter? || a.DmStep?)
    ensures Inv(Apply(s, a))
  {
    var s' := Apply(s, a);
    assert s' == s.(soft := Barrier.Apply(s.soft, SoftAct(a)));
    Barrier.ActInv(s.soft, SoftAct(a));
    assert |s'.soft.threads| == |s.soft.threads|;
    forall k | 0 <= k < |s.gates| ensures SoftOk(s'.soft.threads[k], s.gates[k], s.cores[s.dm[k]]) {
      SoftThread(s, a, k);
    }
    assert Shape(s') && CoresOk(s') && SumsOk(s');
  }

  lemma ActInv(s: State, a: Act)
    requires Inv(s) && Enabled(s, a)
    ensures Inv(Apply(s, a))
  {
    match a
    case Add(c) => AddSums(s, c); ReductionLayout(s, a);
    case Read(c) => ReadSums(s, c); ReductionLayout(s, a);
    case OpenFirst(_) => OpenSums(s, a); OpenLayout(s, a);
    case OpenSecond(_) => OpenSums(s, a); OpenLayout(s, a);
    case DmEnter(_) => SoftInv(s, a);
    case DmStep(_) => SoftInv(s, a);
    case _ => MoveSums(s, a); CoreLayout(s, a);
  }

  lemma {:induction false} BehaviourInv(trace: seq<State>, acts: seq<Act>, j: nat)
    requires Behaviour(trace, acts) && j < |trace|
    ensures Inv(trace[j])
  {
    if j == 0 {
      InitInv(trace[0]);
    } else {
      BehaviourInv(trace, acts, j - 1);
      ActInv(trace[j - 1], acts[j - 1]);
    }
  }

  // ----- what the global barrier promises

  /** In every interleaving, over any number of calls and any shape of the system. */
  lemma NobodyLeavesEarly(trace: seq<State>, acts: seq<Act>, j: nat, c: nat, d: nat)
    requires Behaviour(trace, acts) && j < |trace| && c < |trace[j].cores| && d < |trace[j].cores|
    ensures trace[j].cores[c].left <= trace[j].cores[d].entered
  {
    BehaviourInv(trace, acts, j);
    Separation(trace[j], c, d);
  }

  lemma {:induction false} Fixed(trace: seq<State>, acts: seq<Act>, j: nat)
    requires Behaviour(trace, acts) && j < |trace|
    ensures |trace[j].cores| == |trace[0].cores|
    ensures forall c :: 0 <= c < |trace[0].cores| ==> trace[j].cores[c].value == trace[0].cores[c].value
  {
    if j == 0 {
    } else {
      Fixed(trace, acts, j - 1);
    }
  }

  /** Whatever the reduction has returned to a core is the sum of the values of all cores, modulo 2^32. */
  lemma ReductionIsSum(trace: seq<State>, acts: seq<Act>, j: nat, c: nat)
    requires Behaviour(trace, acts) && j < |trace| && c < |trace[j].cores| && trace[j].cores[c].got.Some?
    ensures trace[j].cores[c].got.value == Total((core: Core) => core.value, trace[0].cores) % 0x1_0000_0000
  {
    BehaviourInv(trace, acts, j);
    Fixed(trace, acts, j);
    assert ReductionOk(trace[j].cores[c], trace[j].q, Total(Value, trace[j].cores) % WORD);
    TotalSame((core: Core) => core.value, Value, trace[0].cores, trace[j].cores);
  }

  // ----- every call returns

  /** An act inside the calls already made. */
  predicate Moves(a: Act) { a.OpenFirst? || a.DmEnter? || a.DmStep? || a.Arrive? || a.OpenSecond? }

  ghost predicate Stuck(s: State) { forall a: Act :: Moves(a) ==> !Enabled(s, a) }

  lemma HeldCore(s: State, c: nat)
    requires Shape(s) && Stuck(s) && c < |s.cores| && s.cores[c].pc == Between
    ensures s.dm[s.cores[c].cluster] == c && !SoftDone(s, s.cores[c].cluster)
  {
    assert !Enabled(s, Arrive(c));
  }

  /** Nothing moves, and the cores of a cluster are between its gates: the software part of this call is not over. */
  lemma HeldBetween(s: State, k: nat)
    requires Inv(s) && Stuck(s) && k < |s.gates| && s.gates[k].first != s.gates[k].second
    ensures s.cores[s.dm[k]].pc == Between && !SoftDone(s, k)
  {
    assert !Enabled(s, OpenSecond(k));
    var c :| 0 <= c < |s.cores| && s.cores[c].cluster == k && s.cores[c].pc != Second;
    assert CoreOk(s.cores[c], s.gates[k]);
    HeldCore(s, c);
  }

  /** ... so its thread is in the software barrier. */
  lemma HeldInside(s: State, k: nat)
    requires Inv(s) && Stuck(s) && k < |s.gates| && s.gates[k].first != s.gates[k].second
    ensures s.soft.threads[k].pc != Barrier.Outside && s.soft.threads[k].entered == s.gates[k].first
  {
    HeldBetween(s, k);
    assert SoftOk(s.soft.threads[k], s.gates[k], s.cores[s.dm[k]]) && !Enabled(s, DmEnter(k));
    assert Barrier.ThreadOk(s.soft.round, s.soft.iteration, s.soft.threads[k]);
  }

  /** Nothing moves, and no core of a cluster is between its gates: some core has not made the next call. */
  lemma HeldFirst(s: State, k: nat)
    requires Inv(s) && Stuck(s) && k < |s.gates| && s.gates[k].first == s.gates[k].second
    ensures exists c :: 0 <= c < |s.cores| && s.cores[c].pc == Out && s.cores[c].entered == s.gates[k].first
  {
    assert !Enabled(s, OpenFirst(k));
    var c :| 0 <= c < |s.cores| && s.cores[c].cluster == k && s.cores[c].pc != First;
    assert CoreOk(s.cores[c], s.gates[k]);
  }

  /** A core that is held inside a call waits for one that has made fewer. */
  lemma WaitsFor(s: State, c: nat)
    requires Inv(s) && Stuck(s) && c < |s.cores| && s.cores[c].pc != Out
    ensures exists d :: 0 <= d < |s.cores| && s.cores[d].pc == Out && s.cores[d].entered < s.cores[c].entered
  {
    var k := s.cores[c].cluster;
    assert CoreOk(s.cores[c], s.gates[k]);
    if s.gates[k].first == s.gates[k].second {
      HeldFirst(s, k);
    } else {
      HeldInside(s, k);
      forall i | 0 <= i < |s.soft.threads| ensures !Barrier.Enabled(s.soft, Barrier.Step(i)) {
        assert !Enabled(s, DmStep(i));
      }
      Barrier.WaitsFor(s.soft, k);
      var l :| 0 <= l < |s.soft.threads| && s.soft.threads[l].pc == Barrier.Outside
               && s.soft.threads[l].entered < s.soft.threads[k].entered;
      if s.gates[l].first != s.gates[l].second { HeldInside(s, l); }
      HeldFirst(s, l);
      assert SoftOk(s.soft.threads[l], s.gates[l], s.cores[s.dm[l]]);
      assert Barrier.ThreadOk(s.soft.round, s.soft.iteration, s.soft.threads[l]);
    }
  }

  /** No deadlock: while every core is inside a barrier call, some core or gate can move. */
  lemma Progress(s: State)
    requires Inv(s) && forall c :: 0 <= c < |s.cores| ==> s.cores[c].pc != Out
    ensures exists a: Act :: Moves(a) && Enabled(s, a)
  {
    if Stuck(s) { WaitsFor(s, s.dm[0]); }
  }

  function CoreRank(core: Core): nat {
    match core.pc
    case First => 8
    case Between => 2
    case Second => 1
    case Out => 0
  }

  /** What cluster k's thread of the software barrier still does in this call. */
  function SoftRank(t: (Barrier.Thread, Gate)): nat {
    Barrier.StepsLeft(t.0) + if t.0.entered < t.1.first then 5 else 0
  }

  function Threads(s: State): (r: seq<(Barrier.Thread, Gate)>)
    requires |s.gates| == |s.soft.threads|
    ensures |r| == |s.gates| && forall k :: 0 <= k < |r| ==> r[k] == (s.soft.threads[k], s.gates[k])
  {
    seq(|s.gates|, k requires 0 <= k < |s.gates| => (s.soft.threads[k], s.gates[k]))
  }

  function Rank(s: State): nat
    requires |s.gates| == |s.soft.threads|
  {
    Total(CoreRank, s.cores) + Total(SoftRank, Threads(s))
  }

  /** Opening a gate brings every core of the cluster nearer to its return. */
  lemma {:induction false} ReleaseRank(cores: seq<Core>, k: nat, pc: Pc, c: nat, gain: nat)
    requires c < |cores| && cores[c].cluster == k
    requires forall d :: 0 <= d < |cores| && cores[d].cluster == k ==> CoreRank(cores[d]) >= CoreRank(cores[d].(pc := pc)) + gain
    ensures Total(CoreRank, Release(cores, k, pc)) + gain <= Total(CoreRank, cores)
  {
    var n := |cores| - 1;
    assert Release(cores, k, pc)[..n] == Release(cores[..n], k, pc);
    if c < n {
      ReleaseRank(cores[..n], k, pc, c, gain);
    } else {
      ReleaseNot(cores[..n], k, pc);
    }
  }

  lemma {:induction false} ReleaseNot(cores: seq<Core>, k: nat, pc: Pc)
    requires forall d :: 0 <= d < |cores| && cores[d].cluster == k ==> CoreRank(cores[d]) >= CoreRank(cores[d].(pc := pc))
    ensures Total(CoreRank, Release(cores, k, pc)) <= Total(CoreRank, cores)
  {
    if cores == [] {
    } else {
      var n := |cores| - 1;
      assert Release(cores, k, pc)[..n] == Release(cores[..n], k, pc);
      ReleaseNot(cores[..n], k, pc);
    }
  }

  lemma ThreadsUpdate(s: State, s': State, k: nat)
    requires |s.gates| == |s.soft.threads| && k < |s.gates| && |s'.gates| == |s'.soft.threads| == |s.gates|
    requires forall l :: 0 <= l < |s.gates| && l != k ==> s'.soft.threads[l] == s.soft.threads[l] && s'.gates[l] == s.gates[l]
    ensures Total(SoftRank, Threads(s')) - SoftRank((s'.soft.threads[k], s'.gates[k]))
            == Total(SoftRank, Threads(s)) - SoftRank((s.soft.threads[k], s.gates[k]))
  {
    var pair := (s'.soft.threads[k], s'.gates[k]);
    TotalUpdate(SoftRank, Threads(s), k, pair);
    assert Threads(s') == Threads(s)[k := pair];
  }

  lemma OpenFirstRank(s: State, k: nat)
    requires Shape(s) && Enabled(s, OpenFirst(k))
    ensures Rank(Apply(s, OpenFirst(k))) < Rank(s)
  {
    ReleaseRank(s.cores, k, Between, s.dm[k], 6);
    ThreadsUpdate(s, Apply(s, OpenFirst(k)), k);
  }

  lemma OpenSecondRank(s: State, k: nat)
    requires Shape(s) && Enabled(s, OpenSecond(k))
    ensures Rank(Apply(s, OpenSecond(k))) < Rank(s)
  {
    ReleaseRank(s.cores, k, Out, s.dm[k], 1);
    ThreadsUpdate(s, Apply(s, OpenSecond(k)), k);
  }

  lemma ThreadRank(b: Barrier.State, a: Barrier.Act, g: Gate)
    requires Barrier.Enabled(b, a) && (a.Enter? ==> b.threads[a.i].entered + 1 == g.first)
    ensures var b' := Barrier.Apply(b, a);
            && |b'.threads| == |b.threads| && (forall l :: 0 <= l < |b.threads| && l != a.i ==> b'.threads[l] == b.threads[l])
            && SoftRank((b'.threads[a.i], g)) < SoftRank((b.threads[a.i], g))
  {}

  lemma EnterDue(s: State, k: nat)
    requires Layout(s) && Enabled(s, DmEnter(k))
    ensures s.soft.threads[k].entered + 1 == s.gates[k].first
  {
    assert SoftOk(s.soft.threads[k], s.gates[k], s.cores[s.dm[k]]);
    assert Barrier.ThreadOk(s.soft.round, s.soft.iteration, s.soft.threads[k]);
  }

  lemma SoftRankFalls(s: State, a: Act)
    requires Layout(s) && Enabled(s, a) && (a.DmEnter? || a.DmStep?)
    ensures |Apply(s, a).gates| == |Apply(s, a).soft.threads| && Rank(Apply(s, a)) < Rank(s)
  {
    if a.DmEnter? { EnterDue(s, a.k); }
    ThreadRank(s.soft, SoftAct(a), s.gates[a.k]);
    ThreadsUpdate(s, Apply(s, a), a.k);
  }

  lemma ArriveRank(s: State, c: nat)
    requires Shape(s) && Enabled(s, Arrive(c))
    ensures Rank(Apply(s, Arrive(c))) < Rank(s)
  {
    TotalUpdate(CoreRank, s.cores, c, s.cores[c].(pc := Second));
    assert Threads(Apply(s, Arrive(c))) == Threads(s);
  }

  lemma RankFalls(s: State, a: Act)
    requires Inv(s) && Enabled(s, a) && Moves(a)
    ensures |Apply(s, a).gates| == |Apply(s, a).soft.threads| && Rank(Apply(s, a)) < Rank(s)
  {
    match a
    case Arrive(c) => ArriveRank(s, c);
    case OpenFirst(k) => OpenFirstRank(s, k);
    case OpenSecond(k) => OpenSecondRank(s, k);
    case _ => SoftRankFalls(s, a);
  }

  ghost predicate NobodyWaitsForEqual(s: State) {
    forall c :: 0 <= c < |s.cores| && s.cores[c].pc != Out ==>
      exists d :: 0 <= d < |s.cores| && s.cores[d].entered < s.cores[c].entered
  }

  /** From any position on, a run without new calls takes at most Rank acts; if it stops, every core still inside waits for
      one that has made fewer calls. So if all have made equally many, every call has returned. */
  lemma {:induction false} CallsComplete(trace: seq<State>, acts: seq<Act>, i: nat)
    requires Behaviour(trace, acts) && i <= |acts|
    requires forall j :: i <= j < |acts| ==> Moves(acts[j])
    ensures |trace[i].gates| == |trace[i].soft.threads| && |acts| - i <= Rank(trace[i])
    ensures Stuck(trace[|acts|]) ==> NobodyWaitsForEqual(trace[|acts|])
    decreases |acts| - i
  {
    var s := trace[i];
    BehaviourInv(trace, acts, i);
    if i < |acts| {
      RankFalls(s, acts[i]);
      CallsComplete(trace, acts, i + 1);
    } else if Stuck(s) {
      forall c | 0 <= c < |s.cores| && s.cores[c].pc != Out
        ensures exists d :: 0 <= d < |s.cores| && s.cores[d].entered < s.cores[c].entered
      {
        WaitsFor(s, c);
      }
    }
  }
}
