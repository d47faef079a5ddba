/** The generic software barrier: n threads, a counter and a 32-bit iteration word.
    One act per access to the shared words. */
module Barrier {
  import opened Counting
  import opened Arithmetic

  datatype Pc = Outside | ReadIteration | AddCount | ResetCount | BumpIteration | Spin

  /** `entered` and `left` count the calls a thread has made and the calls it has returned from. */
  datatype Thread = Thread(pc: Pc, prev: nat, entered: nat, left: nat)

  /** `round` is history: how often the iteration word has been bumped since it was zero. */
  datatype State = State(cnt: nat, iteration: nat, threads: seq<Thread>, round: nat)

  datatype Act = Enter(i: nat) | Step(i: nat)

  predicate Enabled(s: State, a: Act) {
    && a.i < |s.threads|
    && var t := s.threads[a.i];
       if a.Enter? then t.pc == Outside
       else t.pc != Outside && (t.pc == Spin ==> t.prev != s.iteration)
  }

  function Apply(s: State, a: Act): State
    requires Enabled(s, a)
  {
    var i := a.i;
    var t := s.threads[i];
    match t.pc
    case Outside => s.(threads := s.threads[i := t.(pc := ReadIteration, entered := t.entered + 1)])
    case ReadIteration => s.(threads := s.threads[i := t.(pc := AddCount, prev := s.iteration)])
    case AddCount =>
      var c := Inc(s.cnt);
      s.(cnt := c, threads := s.threads[i := t.(pc := if c == |s.threads| then ResetCount else Spin)])
    case ResetCount => s.(cnt := 0, threads := s.threads[i := t.(pc := BumpIteration)])
    case BumpIteration =>
      s.(iteration := Inc(s.iteration), round := s.round + 1,
         threads := s.threads[i := t.(pc := Outside, left := t.left + 1)])
    case Spin => s.(threads := s.threads[i := t.(pc := Outside, left := t.left + 1)])
  }

  /** A zeroed barrier whose n participants are the threads of the sequence. */
  predicate Init(s: State) {
    && 0 < |s.threads| < WORD && s.cnt == 0 && s.iteration == 0 && s.round == 0
    && forall i :: 0 <= i < |s.threads| ==>
         s.threads[i].pc == Outside && s.threads[i].entered == 0 && s.threads[i].left == 0
  }

  ghost predicate Behaviour(trace: seq<State>, acts: seq<Act>) {
    && |trace| == |acts| + 1 && Init(trace[0])
    && forall j :: 0 <= j < |acts| ==> Enabled(trace[j], acts[j]) && trace[j + 1] == Apply(trace[j], acts[j])
  }

  // ----- the invariant

  predicate Leads(t: Thread) { t.pc == ResetCount || t.pc == BumpIteration }

  /** Has incremented the counter in the round after the first r. */
  predicate HasArrived(r: nat, t: Thread) { Leads(t) || (t.pc == Spin && t.entered == r + 1) }

  function Arrived(r: nat): Thread -> bool { (t: Thread) => HasArrived(r, t) }

  predicate ThreadOk(r: nat, iteration: nat, t: Thread) {
    match t.pc
    case Outside => t.entered == t.left == r
    case ReadIteration => t.entered == r + 1 && t.left == r
    case AddCount => t.entered == r + 1 && t.left == r && t.prev == iteration
    case ResetCount => t.entered == r + 1 && t.left == r
    case BumpIteration => t.entered == r + 1 && t.left == r
    case Spin =>
      && t.entered == t.left + 1
      && (t.left == r || t.left + 1 == r) && (t.left == r <==> t.prev == iteration)
  }

  predicate Leader(s: State, i: int) { 0 <= i < |s.threads| && Leads(s.threads[i]) }

  ghost predicate ThreadsOk(s: State) {
    && 0 < |s.threads| < WORD && s.iteration == s.round % WORD
    && (forall i :: 0 <= i < |s.threads| ==> ThreadOk(s.round, s.iteration, s.threads[i]))
  }

  /** The last thread to arrive, and only that one, leads, and has or has not yet reset the counter. */
  ghost predicate CountOk(s: State) {
    var arrived := CountIf(Arrived(s.round), s.threads);
    && (arrived == |s.threads| <==> exists i :: Leader(s, i))
    && (forall i, j :: Leader(s, i) && Leader(s, j) ==> i == j)
    && (if exists i :: Leader(s, i) && s.threads[i].pc == BumpIteration then s.cnt == 0 else s.cnt == arrived)
  }

  ghost predicate Inv(s: State) {
    var inv := ThreadsOk(s) && CountOk(s);
    inv
  }

  lemma InitInv(s: State)
    requires Init(s)
    ensures Inv(s)
  {
    CountNone(Arrived(0), s.threads);
  }

  /** Everybody has arrived, so everybody but the leader is spinning on the current iteration. */
  lemma AllArrived(s: State, l: nat, i: nat)
    requires Inv(s) && Leader(s, l) && i < |s.threads| && i != l
    ensures s.threads[i].pc == Spin && s.threads[i].entered == s.round + 1
  {
    CountFull(Arrived(s.round), s.threads);
    assert Arrived(s.round)(s.threads[i]);
    assert !Leader(s, i);
  }

  lemma QuietThreads(s: State, a: Act)
    requires Inv(s) && Enabled(s, a) && s.threads[a.i].pc in {Outside, ReadIteration, Spin}
    ensures ThreadsOk(Apply(s, a))
  {
    assert ThreadOk(s.round, s.iteration, s.threads[a.i]);
  }

  lemma QuietLeader(s: State, a: Act, i: int)
    requires Inv(s) && Enabled(s, a) && s.threads[a.i].pc in {Outside, ReadIteration, Spin}
    ensures Leader(Apply(s, a), i) <==> Leader(s, i)
    ensures Leader(s, i) ==> Apply(s, a).threads[i] == s.threads[i]
  {}

  lemma QuietCount(s: State, a: Act)
    requires Inv(s) && Enabled(s, a) && s.threads[a.i].pc in {Outside, ReadIteration, Spin}
    ensures CountIf(Arrived(s.round), Apply(s, a).threads) == CountIf(Arrived(s.round), s.threads)
  {
    assert ThreadOk(s.round, s.iteration, s.threads[a.i]);
    CountUpdate(Arrived(s.round), s.threads, a.i, Apply(s, a).threads[a.i]);
  }

  lemma QuietInv(s: State, a: Act)
    requires Inv(s) && Enabled(s, a) && s.threads[a.i].pc in {Outside, ReadIteration, Spin}
    ensures Inv(Apply(s, a))
  {
    var s' := Apply(s, a);
    QuietThreads(s, a);
    QuietCount(s, a);
    forall i ensures (Leader(s', i) <==> Leader(s, i)) && (Leader(s, i) ==> s'.threads[i] == s.threads[i]) {
      QuietLeader(s, a, i);
    }
  }

  lemma AddInv(s: State, a: Act)
    requires Inv(s) && Enabled(s, a) && s.threads[a.i].pc == AddCount
    ensures Inv(Apply(s, a))
  {
    var s' := Apply(s, a);
    CountUpdate(Arrived(s.round), s.threads, a.i, s'.threads[a.i]);
    CountFull(Arrived(s.round), s.threads);
    assert !Arrived(s.round)(s.threads[a.i]);
    assert forall i :: !Leader(s, i);
    assert forall i :: Leader(s', i) && i != a.i ==> Leader(s, i);
    assert ThreadOk(s.round, s.iteration, s.threads[a.i]);
    if s'.cnt == |s.threads| { assert Leader(s', a.i); }
  }

  lemma ResetInv(s: State, a: Act)
    requires Inv(s) && Enabled(s, a) && s.threads[a.i].pc == ResetCount
    ensures Inv(Apply(s, a))
  {
    var s' := Apply(s, a);
    CountUpdate(Arrived(s.round), s.threads, a.i, s'.threads[a.i]);
    assert Leader(s, a.i) && Leader(s', a.i);
    assert forall i :: Leader(s', i) <==> Leader(s, i);
    assert ThreadOk(s.round, s.iteration, s.threads[a.i]);
  }

  lemma BumpInv(s: State, a: Act)
    requires Inv(s) && Enabled(s, a) && s.threads[a.i].pc == BumpIteration
    ensures Inv(Apply(s, a))
  {
    var s' := Apply(s, a);
    assert Leader(s, a.i);
    assert s'.iteration == s'.round % WORD && s'.iteration != s.iteration;
    forall i | 0 <= i < |s.threads|
      ensures ThreadOk(s'.round, s'.iteration, s'.threads[i]) && !Arrived(s'.round)(s'.threads[i]) && !Leader(s', i)
    {
      assert ThreadOk(s.round, s.iteration, s.threads[i]);
      if i != a.i { AllArrived(s, a.i, i); }
    }
    CountNone(Arrived(s'.round), s'.threads);
    assert !exists i :: Leader(s', i);
  }

  lemma ActInv(s: State, a: Act)
    requires Inv(s) && Enabled(s, a)
    ensures Inv(Apply(s, a))
  {
    match s.threads[a.i].pc
    case AddCount => AddInv(s, a);
    case ResetCount => ResetInv(s, a);
    case BumpIteration => BumpInv(s, a);
    case _ => QuietInv(s, a);
  }

  lemma {:induction false} BehaviourInv(trace: seq<State>, acts: seq<Act>, j: nat)
    requires Behaviour(trace, acts) && j < |trace|
    ensures Inv(trace[j])
  {
    if j == 0 {
      InitInv(trace[0]);
    } else {
      BehaviourInv(trace, acts, j - 1);
      ActInv(trace[j - 1], acts[j - 1]);
    }
  }

  // ----- what the barrier promises

  /** Over any number of rounds: nobody has returned from its r-th call unless everybody has made its
      r-th call, and nobody is more than one call ahead. */
  lemma NobodyLeavesEarly(trace: seq<State>, acts: seq<Act>, j: nat, t: nat, u: nat)
    requires Behaviour(trace, acts) && j < |trace| && t < |trace[j].threads| && u < |trace[j].threads|
    ensures trace[j].threads[u].left <= trace[j].threads[t].entered <= trace[j].threads[u].entered + 1
  {
    BehaviourInv(trace, acts, j);
    Separation(trace[j], t, u);
  }

  lemma Separation(s: State, t: nat, u: nat)
    requires Inv(s) && t < |s.threads| && u < |s.threads|
    ensures s.threads[u].left <= s.threads[t].entered <= s.threads[u].entered + 1
  {
    assert ThreadOk(s.round, s.iteration, s.threads[t]);
    assert ThreadOk(s.round, s.iteration, s.threads[u]);
  }

  /** A waiter's remembered word differs from the current one exactly when its round is over, although
      the word wraps at 2^32: the bump is neither missed nor anticipated. */
  lemma BumpSeen(trace: seq<State>, acts: seq<Act>, j: nat, t: nat)
    requires Behaviour(trace, acts) && j < |trace| && t < |trace[j].threads| && trace[j].threads[t].pc == Spin
    ensures trace[j].iteration == trace[j].round % WORD
    ensures trace[j].threads[t].prev != trace[j].iteration <==> trace[j].threads[t].entered == trace[j].round
  {
    BehaviourInv(trace, acts, j);
    assert ThreadOk(trace[j].round, trace[j].iteration, trace[j].threads[t]);
  }

  /** No deadlock: if no thread inside the barrier can move, some participant has not called it yet. */
  lemma Progress(s: State)
    requires Inv(s) && forall i :: 0 <= i < |s.threads| ==> s.threads[i].pc != Outside
    ensures exists i :: 0 <= i < |s.threads| && Enabled(s, Step(i))
  {
    if forall i :: 0 <= i < |s.threads| ==> !Enabled(s, Step(i)) {
      forall i | 0 <= i < |s.threads| ensures s.threads[i].pc == Spin && Arrived(s.round)(s.threads[i]) {
        assert ThreadOk(s.round, s.iteration, s.threads[i]) && !Enabled(s, Step(i));
      }
      CountFull(Arrived(s.round), s.threads);
      assert false;
    }
  }

  function StepsLeft(t: Thread): nat {
    match t.pc
    case Outside => 0
    case ReadIteration => 4
    case AddCount => 3
    case ResetCount => 2
    case BumpIteration => 1
    case Spin => 1
  }

  /** A thread that cannot move inside the barrier waits for one that has made fewer calls. */
  lemma WaitsFor(s: State, i: nat)
    requires Inv(s) && (forall k :: 0 <= k < |s.threads| ==> !Enabled(s, Step(k)))
    requires i < |s.threads| && s.threads[i].pc != Outside
    ensures exists k :: 0 <= k < |s.threads| && s.threads[k].pc == Outside && s.threads[k].entered < s.threads[i].entered
  {
    if forall k :: 0 <= k < |s.threads| ==> s.threads[k].pc != Outside { Progress(s); }
    var k :| 0 <= k < |s.threads| && s.threads[k].pc == Outside;
    assert ThreadOk(s.round, s.iteration, s.threads[k]) && ThreadOk(s.round, s.iteration, s.threads[i]);
    assert !Enabled(s, Step(i));
  }

  ghost predicate NobodyWaitsForEqual(s: State) {
    forall t :: 0 <= t < |s.threads| && s.threads[t].pc != Outside ==>
      exists u :: 0 <= u < |s.threads| && s.threads[u].entered < s.threads[t].entered
  }

  /** From any position on, a run without new calls takes at most 4 steps a thread; if it stops, every thread still inside
      waits for one that has made fewer calls. So if all have made equally many, every call has returned. */
  lemma {:induction false} CallsComplete(trace: seq<State>, acts: seq<Act>, i: nat)
    requires Behaviour(trace, acts) && i <= |acts|
    requires forall j :: i <= j < |acts| ==> acts[j].Step?
    ensures |acts| - i <= Total(StepsLeft, trace[i].threads)
    ensures var last := trace[|acts|];
            (forall k :: 0 <= k < |last.threads| ==> !Enabled(last, Step(k))) ==> NobodyWaitsForEqual(last)
    decreases |acts| - i
  {
    var s := trace[i];
    if i < |acts| {
      TotalUpdate(StepsLeft, s.threads, acts[i].i, trace[i + 1].threads[acts[i].i]);
      CallsComplete(trace, acts, i + 1);
    } else if forall k :: 0 <= k < |s.threads| ==> !Enabled(s, Step(k)) {
      BehaviourInv(trace, acts, i);
      forall t | 0 <= t < |s.threads| && s.threads[t].pc != Outside
        ensures exists u :: 0 <= u < |s.threads| && s.threads[u].entered < s.threads[t].entered
      {
        WaitsFor(s, t);
      }
    }
  }
}
