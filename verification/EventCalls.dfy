/** What the calls of the event unit promise: the dispatches that are due follow from the calls alone, and the cores run
    exactly those. The event structure holds one dispatch, so a second push, or eu_exit, loses one that was not run. */
module EventCalls {
  import opened EventUnit

  /** What a sequence of calls amounts to: the dispatches run, the one waiting (at most one), and how many were lost. */
  datatype Queue = Queue(run: seq<Dispatch>, waiting: seq<Dispatch>, lost: nat)

  /** A push with no threads leaves nothing to run. */
  function One(d: Dispatch): seq<Dispatch> { if d.nthreads == 0 then [] else [d] }

  function Call(q: Queue, a: Act): Queue {
    match a
    case CallPush(d) => Queue(q.run, One(d), q.lost + |q.waiting|)
    case CallRun => Queue(q.run + q.waiting, [], q.lost)
    case CallExit => Queue(q.run, [], q.lost + |q.waiting|)
    case _ => q
  }

  function Due(acts: seq<Act>): Queue {
    if acts == [] then Queue([], [], 0) else Call(Due(acts[..|acts| - 1]), acts[|acts| - 1])
  }

  /** The dispatches pushed with some threads, in order. */
  function Pushed(acts: seq<Act>): seq<Dispatch> {
    if acts == [] then []
    else
      var before := Pushed(acts[..|acts| - 1]);
      match acts[|acts| - 1]
      case CallPush(d) => before + One(d)
      case _ => before
  }

  lemma NextCall(acts: seq<Act>, j: nat)
    requires j < |acts|
    ensures Due(acts[..j + 1]) == Call(Due(acts[..j]), acts[j])
  {
    assert acts[..j + 1][..j] == acts[..j];
  }

  // ----- the state agrees with the calls

  predicate InPush(m: MasterPc) {
    m.PushLoad? || m.PushWait? || m.PushFn? || m.PushData? || m.PushArgc? || m.PushTeam?
  }

  /** The dispatch in the event structure, if it has threads. */
  function Held(s: State): seq<Dispatch> { if s.nthreads == 0 then [] else [s.pending] }

  predicate Matches(s: State, q: Queue) {
    var waiting := if s.master == Idle then Held(s) else if InPush(s.master) then One(s.master.d) else [];
    var entering := if s.master == RunLoad then Held(s) else [];
    q.run == s.hist + entering && q.waiting == waiting
  }

  lemma MainMatches(s: State, q: Queue)
    requires MainEnabled(s) && MasterOk(s) && Matches(s, q)
    ensures Matches(MainAct(s), q)
  {}

  lemma ActMatches(s: State, q: Queue, a: Act)
    requires Enabled(s, a) && MasterOk(s) && Matches(s, q)
    ensures Matches(Apply(s, a), Call(q, a))
  {
    if a.Main? {
      MainMatches(s, q);
    }
  }

  lemma StepMatches(trace: seq<State>, acts: seq<Act>, j: nat)
    requires Behaviour(trace, acts) && j < |acts| && Matches(trace[j], Due(acts[..j]))
    ensures Matches(trace[j + 1], Due(acts[..j + 1]))
  {
    BehaviourInv(trace, acts, j);
    NextCall(acts, j);
    ActMatches(trace[j], Due(acts[..j]), acts[j]);
  }

  lemma {:induction false} CallsMatch(trace: seq<State>, acts: seq<Act>, j: nat)
    requires Behaviour(trace, acts) && j < |trace|
    ensures Matches(trace[j], Due(acts[..j]))
  {
    if j == 0 {
    } else {
      CallsMatch(trace, acts, j - 1);
      StepMatches(trace, acts, j - 1);
    }
  }

  /** The accepted dispatches are those due by the calls, short of the last one until a run in progress accepts it. */
  lemma AcceptedAreDue(trace: seq<State>, acts: seq<Act>, j: nat)
    requires Behaviour(trace, acts) && j < |trace|
    ensures var h, due := trace[j].hist, Due(acts[..j]).run;
            h == due || (trace[j].master == RunLoad && due != [] && h == due[..|due| - 1])
  {
    CallsMatch(trace, acts, j);
    var h := trace[j].hist;
    assert h + [] == h && (h + Held(trace[j]))[..|h|] == h;
  }

  /** In every interleaving, whenever core 0 is outside the event unit, so in particular when eu_run_empty has returned:
      every core has called and finished, once and in order, the tasks due to it by the calls made so far, and no other. */
  lemma RunsAreCalls(trace: seq<State>, acts: seq<Act>, j: nat, c: nat)
    requires Behaviour(trace, acts) && j < |trace| && c <= |trace[j].workers|
    requires trace[j].master == Idle || trace[j].master == Finished
    ensures Ran(trace[j], c) == Share(Due(acts[..j]).run, c) && Done(trace[j], c) == |Ran(trace[j], c)|
  {
    AcceptedAreDue(trace, acts, j);
    BehaviourInv(trace, acts, j);
    CoreSettled(trace[j], c);
  }

  /** At any position, inside a call too, a core has called its share of what is due, or that short of the last dispatch. */
  lemma NothingElseRuns(trace: seq<State>, acts: seq<Act>, j: nat, c: nat)
    requires Behaviour(trace, acts) && j < |trace| && c <= |trace[j].workers|
    ensures var r, due := Ran(trace[j], c), Due(acts[..j]).run;
            r == Share(due, c) || (due != [] && r == Share(due[..|due| - 1], c))
  {
    AcceptedAreDue(trace, acts, j);
    CallsMatch(trace, acts, j);
    NoForeignRun(trace, acts, j, c);
    var s := trace[j];
    if s.master == RunLoad {
      BehaviourInv(trace, acts, j);
      if c > 0 { assert WorkerOk(ModeOf(s), s.hist, s.workers[c - 1], c); }
    }
  }

  // ----- one push, one run

  lemma {:induction false} QuietDue(acts: seq<Act>, i: nat, j: nat)
    requires i <= j <= |acts| && forall k :: i <= k < j ==> acts[k].Work? || acts[k].Main?
    ensures Due(acts[..j]) == Due(acts[..i])
  {
    if j == i {
    } else {
      QuietDue(acts, i, j - 1);
      NextCall(acts, j - 1);
    }
  }

  /** The number of workers does not change. */
  lemma {:induction false} SameWorkers(trace: seq<State>, acts: seq<Act>, i: nat, j: nat)
    requires Behaviour(trace, acts) && i <= j < |trace|
    ensures |trace[i].workers| == |trace[j].workers|
  {
    if i == j {
    } else {
      SameWorkers(trace, acts, i, j - 1);
      assert Enabled(trace[j - 1], acts[j - 1]) && trace[j] == Apply(trace[j - 1], acts[j - 1]);
    }
  }

  /** A push, then a run, with no other call between or after: when the run has returned, every core below the number of
      threads pushed has called the task pushed, once, on top of what it had called before, and no other core has called
      anything. */
  lemma PushThenRun(trace: seq<State>, acts: seq<Act>, p: nat, r: nat, j: nat, c: nat)
    requires Behaviour(trace, acts) && p < r < j < |trace| && acts[p].CallPush? && acts[r] == CallRun
    requires (forall i :: p < i < j && i != r ==> acts[i].Work? || acts[i].Main?)
    requires trace[j].master == Idle && c <= |trace[j].workers|
    ensures trace[r].master == Idle && |trace[r].workers| == |trace[j].workers|
    ensures var before := if c == 0 then trace[r].ran else trace[r].workers[c - 1].ran;
            var after := if c == 0 then trace[j].ran else trace[j].workers[c - 1].ran;
            after == if c < acts[p].d.nthreads then before + [acts[p].d.task] else before
  {
    assert Enabled(trace[r], acts[r]);
    SameWorkers(trace, acts, r, j);
    RunsAreCalls(trace, acts, r, c);
    RunsAreCalls(trace, acts, j, c);
    PushThenDue(acts, p, r, j);
    ShareOne(Due(acts[..r]).run, acts[p].d, c);
  }

  lemma PushThenDue(acts: seq<Act>, p: nat, r: nat, j: nat)
    requires p < r < j <= |acts| && acts[p].CallPush? && acts[r] == CallRun
    requires (forall i :: p < i < j && i != r ==> acts[i].Work? || acts[i].Main?)
    ensures Due(acts[..j]).run == Due(acts[..r]).run + One(acts[p].d)
  {
    NextCall(acts, p);
    QuietDue(acts, p + 1, r);
    NextCall(acts, r);
    QuietDue(acts, r + 1, j);
  }

  lemma ShareOne(h: seq<Dispatch>, d: Dispatch, c: nat)
    ensures Share(h + One(d), c) == if c < d.nthreads then Share(h, c) + [d.task] else Share(h, c)
  {
    assert d.nthreads > 0 ==> (h + [d])[..|h|] == h;
    assert h + [] == h;
  }

  // ----- what is lost

  /** Every dispatch pushed is run, waits, or is lost; if none is lost they are run in the order pushed. */
  lemma {:induction false} Account(acts: seq<Act>)
    ensures var q := Due(acts);
            && |q.run| + |q.waiting| + q.lost == |Pushed(acts)|
            && (q.lost == 0 ==> q.run + q.waiting == Pushed(acts))
    ensures forall d :: d in Due(acts).run + Due(acts).waiting + Pushed(acts) ==> d.nthreads > 0
  {
    if acts == [] {
    } else {
      Account(acts[..|acts| - 1]);
    }
  }

  /** A call that leaves the waiting dispatch unrun. */
  predicate Loses(a: Act, waiting: seq<Dispatch>) { (a.CallPush? || a.CallExit?) && waiting != [] }

  predicate LosesAt(acts: seq<Act>, i: nat)
    requires i < |acts|
  {
    Loses(acts[i], Due(acts[..i]).waiting)
  }

  lemma {:induction false} LostExactly(acts: seq<Act>, j: nat)
    requires j <= |acts|
    ensures Due(acts[..j]).lost == 0 <==> forall i :: 0 <= i < j ==> !LosesAt(acts, i)
  {
    if j == 0 {
    } else {
      LostExactly(acts, j - 1);
      LostNext(acts, j - 1);
    }
  }

  lemma LostNext(acts: seq<Act>, i: nat)
    requires i < |acts|
    ensures Due(acts[..i + 1]).lost == 0 <==> Due(acts[..i]).lost == 0 && !LosesAt(acts, i)
  {
    NextCall(acts, i);
  }

  /** What one call finds in the event structure. */
  lemma LosesExactly(trace: seq<State>, acts: seq<Act>, i: nat)
    requires Behaviour(trace, acts) && i < |acts|
    ensures Loses(acts[i], Due(acts[..i]).waiting) <==> (acts[i].CallPush? || acts[i].CallExit?) && trace[i].nthreads != 0
  {
    CallsMatch(trace, acts, i);
  }

  lemma {:induction false} FullShare(h: seq<Dispatch>)
    requires forall d :: d in h ==> d.nthreads > 0
    ensures |Share(h, 0)| == |h|
  {
    if h == [] {
    } else {
      assert h[|h| - 1] in h;
      FullShare(h[..|h| - 1]);
    }
  }

  /** Every core has run its share of everything pushed. */
  ghost predicate AllRun(s: State, acts: seq<Act>) {
    forall c: nat :: c <= |s.workers| ==> Ran(s, c) == Share(Pushed(acts), c)
  }

  /** No call found a waiting dispatch. */
  ghost predicate NoneOverwritten(trace: seq<State>, acts: seq<Act>)
    requires |trace| == |acts| + 1
  {
    forall i :: 0 <= i < |acts| && (acts[i].CallPush? || acts[i].CallExit?) ==> trace[i].nthreads == 0
  }

  lemma LostNever(trace: seq<State>, acts: seq<Act>)
    requires Behaviour(trace, acts)
    ensures Due(acts).lost == 0 <==> NoneOverwritten(trace, acts)
  {
    assert acts[..|acts|] == acts;
    LostExactly(acts, |acts|);
    forall i | 0 <= i < |acts|
      ensures LosesAt(acts, i) <==> (acts[i].CallPush? || acts[i].CallExit?) && trace[i].nthreads != 0
    {
      LosesExactly(trace, acts, i);
    }
  }

  lemma AllRunWhen(s: State, acts: seq<Act>)
    requires Due(acts).waiting == [] && forall c: nat :: c <= |s.workers| ==> Ran(s, c) == Share(Due(acts).run, c)
    ensures AllRun(s, acts) <==> Due(acts).lost == 0
  {
    Account(acts);
    assert Due(acts).run + [] == Due(acts).run;
    if AllRun(s, acts) {
      FullShare(Due(acts).run);
      FullShare(Pushed(acts));
      assert Ran(s, 0) == Share(Pushed(acts), 0) == Share(Due(acts).run, 0);
    }
  }

  /** When eu_exit has returned, everything that was ever pushed has been run, by every core of its team, exactly when no
      push and no eu_exit was called while e.nthreads was not zero. The comment at line 184 promises this of eu_exit; its
      test is inverted, and eu_dispatch_push does not look at what it overwrites. */
  lemma AllRunExactly(trace: seq<State>, acts: seq<Act>)
    requires Behaviour(trace, acts) && trace[|acts|].master == Finished
    ensures AllRun(trace[|acts|], acts) <==> NoneOverwritten(trace, acts)
  {
    var s := trace[|acts|];
    assert acts[..|acts|] == acts;
    CallsMatch(trace, acts, |acts|);
    forall c: nat | c <= |s.workers| ensures Ran(s, c) == Share(Due(acts).run, c) {
      RunsAreCalls(trace, acts, |acts|, c);
    }
    AllRunWhen(s, acts);
    LostNever(trace, acts);
  }

  // ----- a second push replaces the first

  /** Between two pushes with no run and no exit in between, the first dispatch is dropped. */
  lemma {:induction false} PushReplaces(acts: seq<Act>, i: nat, k: nat)
    requires i < k < |acts| && acts[i].CallPush? && acts[i].d.nthreads > 0 && acts[k].CallPush?
    requires forall j :: i < j < k ==> acts[j].Work? || acts[j].Main?
    ensures Due(acts[..k]).waiting == [acts[i].d]
    ensures Due(acts[..k + 1]) == Queue(Due(acts[..i]).run, One(acts[k].d), Due(acts[..i]).lost + |Due(acts[..i]).waiting| + 1)
  {
    Waits(acts, i, k);
    NextCall(acts, k);
  }

  lemma {:induction false} Waits(acts: seq<Act>, i: nat, k: nat)
    requires i < k <= |acts| && acts[i].CallPush? && forall j :: i < j < k ==> acts[j].Work? || acts[j].Main?
    ensures Due(acts[..k]) == Call(Due(acts[..i]), acts[i])
    decreases k
  {
    NextCall(acts, k - 1);
    if i + 1 >= k {
    } else {
      Waits(acts, i, k - 1);
    }
  }

  /** A run with these acts that ends in s. */
  ghost predicate Ends(acts: seq<Act>, s: State) {
    exists trace :: Behaviour(trace, acts) && trace[|acts|] == s
  }

  lemma Extend(acts: seq<Act>, s: State, a: Act)
    requires Ends(acts, s) && Enabled(s, a)
    ensures Ends(acts + [a], Apply(s, a))
  {
    var trace :| Behaviour(trace, acts) && trace[|acts|] == s;
    var longer := trace + [Apply(s, a)];
    assert Behaviour(longer, acts + [a]);
  }

  /** One act of core 0. */
  lemma Step(acts: seq<Act>, s: State) returns (acts': seq<Act>, s': State)
    requires Ends(acts, s) && MainEnabled(s)
    ensures Ends(acts', s') && s' == MainAct(s) && Pushed(acts') == Pushed(acts)
  {
    Extend(acts, s, Main);
    acts', s' := acts + [Main], MainAct(s);
    assert acts'[..|acts|] == acts;
  }

  /** A push by a lone core. */
  lemma PushAlone(acts: seq<Act>, s: State, d: Dispatch) returns (acts': seq<Act>, s': State)
    requires Ends(acts, s) && s.master == Idle && s.wfi == s.inLoop
    ensures Ends(acts', s') && s' == s.(task := d.task, nthreads := d.nthreads, pending := d) && Pushed(acts') == Pushed(acts) + One(d)
  {
    Extend(acts, s, CallPush(d));
    acts', s' := acts + [CallPush(d)], s.(master := PushLoad(d));
    assert acts'[..|acts|] == acts;
    acts', s' := Step(acts', s');
    acts', s' := Step(acts', s');
    acts', s' := PushWords(acts', s', d);
  }

  lemma PushWords(acts: seq<Act>, s: State, d: Dispatch) returns (acts': seq<Act>, s': State)
    requires Ends(acts, s) && s.master == PushFn(d)
    ensures Ends(acts', s') && s' == s.(master := Idle, task := d.task, nthreads := d.nthreads, pending := d)
    ensures Pushed(acts') == Pushed(acts)
  {
    acts', s' := Step(acts, s);
    acts', s' := Step(acts', s');
    acts', s' := Step(acts', s');
    acts', s' := Step(acts', s');
  }

  /** Up to core 0's own call of the task ... */
  lemma RunStart(acts: seq<Act>, s: State, d: Dispatch) returns (acts': seq<Act>, s': State)
    requires Ends(acts, s) && s.master == Idle && s.nthreads == d.nthreads == 1 && s.pending == d
    ensures Ends(acts', s') && Pushed(acts') == Pushed(acts)
    ensures s' == s.(master := RunReadFn(1), fini := 0, hist := s.hist + [d])
  {
    Extend(acts, s, CallRun);
    acts', s' := acts + [CallRun], s.(master := RunLoad);
    assert acts'[..|acts|] == acts;
    acts', s' := Step(acts', s');
    acts', s' := Step(acts', s');
    acts', s' := Step(acts', s');
  }

  /** ... that call ... */
  lemma RunTask(acts: seq<Act>, s: State) returns (acts': seq<Act>, s': State)
    requires Ends(acts, s) && s.master == RunReadFn(1)
    ensures Ends(acts', s') && Pushed(acts') == Pushed(acts)
    ensures s' == s.(master := RunBody(1), own := s.task, ran := s.ran + [s.task])
  {
    acts', s' := Step(acts, s);
    acts', s' := Step(acts', s');
    acts', s' := Step(acts', s');
  }

  /** ... and from there. */
  lemma RunEnd(acts: seq<Act>, s: State) returns (acts': seq<Act>, s': State)
    requires Ends(acts, s) && s.master == RunBody(1)
    ensures Ends(acts', s') && Pushed(acts') == Pushed(acts)
    ensures s'.master == Idle && s'.nthreads == 0 && s'.ran == s.ran
  {
    acts', s' := Step(acts, s);
    acts', s' := Step(acts', s');
  }

  /** A run in which that happens: one core pushes two different tasks, and only the second is ever run. */
  lemma PushCanReplace(t: Task, u: Task) returns (acts: seq<Act>, last: State)
    ensures Ends(acts, last) && Pushed(acts) == [Dispatch(t, 1), Dispatch(u, 1)]
    ensures last.master == Idle && last.nthreads == 0 && last.ran == [u]
  {
    acts, last := Booted(t);
    acts, last := PushAlone(acts, last, Dispatch(t, 1));
    acts, last := PushAlone(acts, last, Dispatch(u, 1));
    acts, last := RunStart(acts, last, Dispatch(u, 1));
    acts, last := RunTask(acts, last);
    acts, last := RunEnd(acts, last);
  }

  lemma Booted(t: Task) returns (acts: seq<Act>, s: State)
    ensures Ends(acts, s) && s.master == Idle && s.wfi == s.inLoop && s.ran == [] && Pushed(acts) == []
  {
    s := State(0, false, 0, t, 0, 0, Boot, t, [], 0, [], Dispatch(t, 0), []);
    assert Behaviour([s], []);
    acts, s := Step([], s);
  }
}
