/** The fork-join event unit of the OpenMP runtime: core 0 publishes an event and joins,
    cores 1..P-1 sit in the event loop. One act per shared-memory access, interrupt
    operation or wake-up; every interleaving of acts is a run. A poll that would spin is an
    act that is not enabled. */
module EventUnit {
  import opened Counting
  import opened Arithmetic

  datatype Task = Task(fn: int, data: int, argc: int)
  datatype Dispatch = Dispatch(task: Task, nthreads: nat)

  datatype WorkerPc =
    | Enter | CheckExit | CheckTeam | CopyTeam | ReadFn | ReadData | ReadArgc
    | Running | BumpFini | BumpWfi | Asleep | ClearIrq | DropWfi | Exited

  /** A worker core: program counter, pending cluster interrupt, the three words of the event
      it has read, and its history: the tasks it has called and how many of them returned. */
  datatype Worker = Worker(pc: WorkerPc, irq: bool, task: Task, ran: seq<Task>, done: nat)

  datatype MasterPc =
    | Boot | Idle
    | PushLoad(d: Dispatch) | PushWait(d: Dispatch, scratch: nat)
    | PushFn(d: Dispatch) | PushData(d: Dispatch) | PushArgc(d: Dispatch) | PushTeam(d: Dispatch)
    | RunLoad | RunReset(n: nat)
    | WakeLoad(n: nat) | WakeWait(n: nat, scratch: nat) | WakeSet(n: nat)
    | RunTeam(n: nat) | RunReadFn(n: nat) | RunReadData(n: nat) | RunReadArgc(n: nat) | RunBody(n: nat)
    | JoinLoad | JoinWait(scratch: nat) | RunClear
    | ExitTest | ExitEmpty | ExitLoad | ExitWait(scratch: nat) | ExitFlag
    | ExitWakeLoad | ExitWakeWait(scratch: nat) | ExitWakeSet | Finished

  /** `pending` is the argument of the last completed push that has not been run, `hist` the
      dispatches that a call of run_empty has accepted, oldest first. */
  datatype State = State(
    inLoop: nat, exitFlag: bool, wfi: nat, task: Task, nthreads: nat, fini: nat,
    master: MasterPc, own: Task, ran: seq<Task>, done: nat,
    workers: seq<Worker>, pending: Dispatch, hist: seq<Dispatch>)

  datatype Act = Work(i: nat) | Main | CallPush(d: Dispatch) | CallRun | CallExit

  // ----- the code, one act at a time

  predicate WorkEnabled(s: State, i: nat)
    requires i < |s.workers|
  {
    s.workers[i].pc != Exited && (s.workers[i].pc == Asleep ==> s.workers[i].irq)
  }

  /** What the act changes in the core itself: the event loop and worker_wfi of core c. */
  function Advance(s: State, w: Worker, c: nat): Worker {
    match w.pc
    case Enter => w.(pc := CheckExit)
    case CheckExit => w.(pc := if s.exitFlag then Exited else CheckTeam)
    case CheckTeam => w.(pc := if c < s.nthreads then CopyTeam else BumpFini)
    case CopyTeam => w.(pc := ReadFn)
    case ReadFn => w.(pc := ReadData, task := w.task.(fn := s.task.fn))
    case ReadData => w.(pc := ReadArgc, task := w.task.(data := s.task.data))
    case ReadArgc =>
      var t := w.task.(argc := s.task.argc);
      w.(pc := Running, task := t, ran := w.ran + [t])
    case Running => w.(pc := BumpFini, done := w.done + 1)
    case BumpFini => w.(pc := BumpWfi)
    case BumpWfi => w.(pc := Asleep)
    case Asleep => w.(pc := ClearIrq)
    case ClearIrq => w.(pc := DropWfi, irq := false)
    case DropWfi => w.(pc := CheckExit)
    case Exited => w
  }

  /** Worker i of the sequence is core i + 1. The three atomic adds are on 32-bit words. */
  function WorkerAct(s: State, i: nat): State
    requires i < |s.workers|
  {
    var w := s.workers[i];
    s.(inLoop := if w.pc == Enter then Inc(s.inLoop) else s.inLoop,
       fini := if w.pc == BumpFini then Inc(s.fini) else s.fini,
       wfi := if w.pc == BumpWfi then Inc(s.wfi) else if w.pc == DropWfi then Dec(s.wfi) else s.wfi,
       workers := s.workers[i := Advance(s, w, i + 1)])
  }

  /** snrt_int_cluster_set on every compute core but hart 0. */
  function WakeAll(ws: seq<Worker>): (r: seq<Worker>)
    ensures |r| == |ws|
  {
    seq(|ws|, i requires 0 <= i < |ws| => ws[i].(irq := true))
  }

  predicate MainEnabled(s: State) {
    match s.master
    case Boot => s.wfi == |s.workers|
    case Idle => false
    case PushWait(_, scratch) => s.wfi == scratch
    case WakeWait(_, scratch) => s.wfi == scratch
    case JoinWait(scratch) => s.fini == scratch
    case ExitEmpty => s.nthreads == 0
    case ExitWait(scratch) => s.wfi == scratch
    case ExitWakeWait(scratch) => s.wfi == scratch
    case Finished => false
    case _ => true
  }

  function MainAct(s: State): State
    requires MainEnabled(s)
  {
    match s.master
    case Boot => s.(master := Idle)
    // eu_dispatch_push
    case PushLoad(d) => s.(master := PushWait(d, s.inLoop))
    case PushWait(d, _) => s.(master := PushFn(d))
    case PushFn(d) => s.(master := PushData(d), task := s.task.(fn := d.task.fn))
    case PushData(d) => s.(master := PushArgc(d), task := s.task.(data := d.task.data))
    case PushArgc(d) => s.(master := PushTeam(d), task := s.task.(argc := d.task.argc))
    case PushTeam(d) => s.(master := Idle, nthreads := d.nthreads, pending := d)
    // eu_run_empty
    case RunLoad =>
      if s.nthreads == 0 then s.(master := Idle)
      else s.(master := RunReset(s.nthreads), hist := s.hist + [s.pending])
    case RunReset(n) => s.(master := if n > 1 then WakeLoad(n) else RunTeam(n), fini := 0)
    case WakeLoad(n) => s.(master := WakeWait(n, s.inLoop))
    case WakeWait(n, _) => s.(master := WakeSet(n))
    case WakeSet(n) => s.(master := RunTeam(n), workers := WakeAll(s.workers))
    case RunTeam(n) => s.(master := if 0 < s.nthreads then RunReadFn(n) else if n > 1 then JoinLoad else RunClear)
    case RunReadFn(n) => s.(master := RunReadData(n), own := s.own.(fn := s.task.fn))
    case RunReadData(n) => s.(master := RunReadArgc(n), own := s.own.(data := s.task.data))
    case RunReadArgc(n) =>
      var t := s.own.(argc := s.task.argc);
      s.(master := RunBody(n), own := t, ran := s.ran + [t])
    case RunBody(n) => s.(master := if n > 1 then JoinLoad else RunClear, done := s.done + 1)
    case JoinLoad => s.(master := JoinWait(s.inLoop))
    case JoinWait(_) => s.(master := RunClear)
    case RunClear => s.(master := Idle, nthreads := 0, pending := s.pending.(nthreads := 0))
    // eu_exit: the test at line 185 calls run_empty exactly when there is nothing to run
    case ExitTest => s.(master := if s.nthreads == 0 then ExitEmpty else ExitLoad)
    case ExitEmpty => s.(master := ExitLoad)
    case ExitLoad => s.(master := ExitWait(s.inLoop))
    case ExitWait(_) => s.(master := ExitFlag)
    case ExitFlag => s.(master := ExitWakeLoad, exitFlag := true)
    case ExitWakeLoad => s.(master := ExitWakeWait(s.inLoop))
    case ExitWakeWait(_) => s.(master := ExitWakeSet)
    case ExitWakeSet => s.(master := Finished, workers := WakeAll(s.workers))
  }

  predicate Enabled(s: State, a: Act) {
    match a
    case Work(i) => i < |s.workers| && WorkEnabled(s, i)
    case Main => MainEnabled(s)
    case _ => s.master == Idle
  }

  function Apply(s: State, a: Act): State
    requires Enabled(s, a)
  {
    match a
    case Work(i) => WorkerAct(s, i)
    case Main => MainAct(s)
    case CallPush(d) => s.(master := PushLoad(d))
    case CallRun => s.(master := RunLoad)
    case CallExit => s.(master := ExitTest)
  }

  /** eu_init clears the structure; core 0 is in the bootstrap poll. */
  predicate Init(s: State) {
    && |s.workers| < WORD
    && s.inLoop == 0 && !s.exitFlag && s.wfi == 0 && s.nthreads == 0 && s.fini == 0
    && s.master == Boot && s.ran == [] && s.done == 0 && s.hist == [] && s.pending.nthreads == 0
    && forall i :: 0 <= i < |s.workers| ==>
         s.workers[i].pc == Enter && !s.workers[i].irq && s.workers[i].ran == [] && s.workers[i].done == 0
  }

  /** A run: the scheduler picks an enabled act at every position. */
  ghost predicate Behaviour(trace: seq<State>, acts: seq<Act>) {
    && |trace| == |acts| + 1 && Init(trace[0])
    && forall j :: 0 <= j < |acts| ==> Enabled(trace[j], acts[j]) && trace[j + 1] == Apply(trace[j], acts[j])
  }

  // ----- what a core is meant to have run

  /** The tasks that core c owes to a history of dispatches: those whose team includes it, in order. */
  function Share(h: seq<Dispatch>, c: nat): seq<Task> {
    if h == [] then []
    else
      var rest := Share(h[..|h| - 1], c);
      if c < h[|h| - 1].nthreads then rest + [h[|h| - 1].task] else rest
  }

  /** Core c has run and finished exactly its share of h. */
  predicate Settled(ran: seq<Task>, done: nat, h: seq<Dispatch>, c: nat) {
    ran == Share(h, c) && done == |ran|
  }

  // ----- the invariant

  predicate InWfi(w: Worker) { w.pc == Asleep || w.pc == ClearIrq || w.pc == DropWfi }
  predicate Entered(w: Worker) { w.pc != Enter }
  predicate Passed(w: Worker) { w.pc == BumpWfi || w.pc == Asleep }
  predicate Dormant(w: Worker) { w.pc == Asleep && !w.irq }
  /** Through the join of the current round: counted in fini_count and not to be woken. */
  predicate Joined(w: Worker) { (w.pc == BumpWfi && !w.irq) || Dormant(w) }

  /** What the workers may be doing, as far as core 0's program counter tells. */
  datatype Mode = Starting | Calm | Still | Before | Out | Gone

  function ModeOf(s: State): Mode {
    match s.master
    case Boot => Starting
    case Idle => if s.nthreads == 0 then Calm else Still
    case PushLoad(_) => if s.nthreads == 0 then Calm else Still
    case PushWait(_, _) => if s.nthreads == 0 then Calm else Still
    case PushFn(_) => Still
    case PushData(_) => Still
    case PushArgc(_) => Still
    case PushTeam(_) => Still
    case RunLoad => if s.nthreads == 0 then Calm else Still
    case RunReset(_) => Before
    case WakeLoad(_) => Before
    case WakeWait(_, _) => Before
    case WakeSet(_) => Before
    case RunTeam(n) => if n > 1 then Out else Before
    case RunReadFn(n) => if n > 1 then Out else Before
    case RunReadData(n) => if n > 1 then Out else Before
    case RunReadArgc(n) => if n > 1 then Out else Before
    case RunBody(n) => if n > 1 then Out else Before
    case JoinLoad => Out
    case JoinWait(_) => Out
    case RunClear => Calm
    case ExitTest => if s.nthreads == 0 then Calm else Still
    case ExitEmpty => if s.nthreads == 0 then Calm else Still
    case ExitLoad => if s.nthreads == 0 then Calm else Still
    case ExitWait(_) => if s.nthreads == 0 then Calm else Still
    case ExitFlag => Still
    case ExitWakeLoad => Still
    case ExitWakeWait(_) => Still
    case ExitWakeSet => Still
    case Finished => Gone
  }

  /** Core c during the round of the last dispatch of h, after the interrupts were sent. */
  predicate InRound(w: Worker, h: seq<Dispatch>, c: nat) {
    && h != []
    && var d := h[|h| - 1];
       var before := h[..|h| - 1];
       match w.pc
       case Asleep => Settled(w.ran, w.done, if w.irq then before else h, c)
       case ClearIrq => w.irq && Settled(w.ran, w.done, before, c)
       case DropWfi => !w.irq && Settled(w.ran, w.done, before, c)
       case CheckExit => !w.irq && Settled(w.ran, w.done, before, c)
       case CheckTeam => !w.irq && Settled(w.ran, w.done, before, c)
       case CopyTeam => !w.irq && c < d.nthreads && Settled(w.ran, w.done, before, c)
       case ReadFn => !w.irq && c < d.nthreads && Settled(w.ran, w.done, before, c)
       case ReadData =>
         && !w.irq && c < d.nthreads && Settled(w.ran, w.done, before, c)
         && w.task.fn == d.task.fn
       case ReadArgc =>
         && !w.irq && c < d.nthreads && Settled(w.ran, w.done, before, c)
         && w.task.fn == d.task.fn && w.task.data == d.task.data
       case Running => !w.irq && c < d.nthreads && w.ran == Share(h, c) && w.done + 1 == |w.ran|
       case BumpFini => !w.irq && Settled(w.ran, w.done, h, c)
       case BumpWfi => !w.irq && Settled(w.ran, w.done, h, c)
       case _ => false
  }

  predicate Starts(w: Worker) {
    && !w.irq && w.ran == [] && w.done == 0
    && (w.pc == Enter || w.pc == CheckExit || w.pc == CheckTeam || w.pc == BumpFini || w.pc == BumpWfi || w.pc == Asleep)
  }

  predicate Leaves(w: Worker) {
    || (w.irq && (w.pc == Asleep || w.pc == ClearIrq))
    || (!w.irq && (w.pc == DropWfi || w.pc == CheckExit || w.pc == Exited))
  }

  predicate WorkerOk(m: Mode, h: seq<Dispatch>, w: Worker, c: nat) {
    match m
    case Starting => Starts(w)
    case Calm => Joined(w) && Settled(w.ran, w.done, h, c)
    case Still => Dormant(w) && Settled(w.ran, w.done, h, c)
    case Before => Dormant(w) && h != [] && Settled(w.ran, w.done, h[..|h| - 1], c)
    case Out => InRound(w, h, c)
    case Gone => Leaves(w) && Settled(w.ran, w.done, h, c)
  }

  predicate WorkersOk(s: State) {
    forall i :: 0 <= i < |s.workers| ==> WorkerOk(ModeOf(s), s.hist, s.workers[i], i + 1)
  }

  predicate Counters(s: State) {
    && |s.workers| < WORD
    && s.inLoop == CountIf(Entered, s.workers)
    && s.wfi == CountIf(InWfi, s.workers)
    && s.fini <= |s.workers|
    && match ModeOf(s)
       case Starting => s.fini == CountIf(Passed, s.workers)
       case Before => s.master.RunReset? || s.fini == 0
       case Out => s.fini == CountIf(Joined, s.workers)
       case _ => true
  }

  /** Core 0 between rounds: it has run its share. */
  predicate Rested(s: State) { Settled(s.ran, s.done, s.hist, 0) && s.inLoop == |s.workers| }

  /** The event structure holds the pending dispatch. */
  predicate Armed(s: State) {
    && Rested(s) && !s.exitFlag && s.nthreads == s.pending.nthreads
    && (s.nthreads != 0 ==> s.task == s.pending.task)
  }

  /** Core 0 is in run_empty for the last accepted dispatch, with n threads. */
  predicate Round(s: State, n: nat) {
    && s.hist != [] && s.hist[|s.hist| - 1] == s.pending
    && s.nthreads == s.pending.nthreads == n && n > 0 && s.task == s.pending.task
    && !s.exitFlag && s.inLoop == |s.workers|
  }

  predicate NotYet(s: State) { s.hist != [] && Settled(s.ran, s.done, s.hist[..|s.hist| - 1], 0) }

  predicate MasterOk(s: State) {
    match s.master
    case Boot =>
      !s.exitFlag && s.nthreads == 0 && s.pending.nthreads == 0 && s.hist == [] && s.ran == [] && s.done == 0
    case Idle => Armed(s)
    case PushLoad(_) => Armed(s)
    case PushWait(_, scratch) => Armed(s) && scratch == |s.workers|
    case PushFn(_) => Rested(s) && !s.exitFlag
    case PushData(d) => Rested(s) && !s.exitFlag && s.task.fn == d.task.fn
    case PushArgc(d) => Rested(s) && !s.exitFlag && s.task.fn == d.task.fn && s.task.data == d.task.data
    case PushTeam(d) => Rested(s) && !s.exitFlag && s.task == d.task
    case RunLoad => Armed(s)
    case RunReset(n) => Round(s, n) && NotYet(s)
    case WakeLoad(n) => Round(s, n) && NotYet(s) && n > 1
    case WakeWait(n, scratch) => Round(s, n) && NotYet(s) && n > 1 && scratch == |s.workers|
    case WakeSet(n) => Round(s, n) && NotYet(s) && n > 1
    case RunTeam(n) => Round(s, n) && NotYet(s)
    case RunReadFn(n) => Round(s, n) && NotYet(s)
    case RunReadData(n) => Round(s, n) && NotYet(s) && s.own.fn == s.task.fn
    case RunReadArgc(n) => Round(s, n) && NotYet(s) && s.own.fn == s.task.fn && s.own.data == s.task.data
    case RunBody(n) => Round(s, n) && s.ran == Share(s.hist, 0) && s.done + 1 == |s.ran|
    case JoinLoad => Round(s, s.nthreads) && Rested(s) && s.nthreads > 1
    case JoinWait(scratch) => Round(s, s.nthreads) && Rested(s) && s.nthreads > 1 && scratch == |s.workers|
    case RunClear => Round(s, s.nthreads) && Rested(s)
    case ExitTest => Armed(s)
    case ExitEmpty => Armed(s) && s.nthreads == 0
    case ExitLoad => Armed(s)
    case ExitWait(scratch) => Armed(s) && scratch == |s.workers|
    case ExitFlag => Rested(s) && !s.exitFlag
    case ExitWakeLoad => Rested(s) && s.exitFlag
    case ExitWakeWait(scratch) => Rested(s) && s.exitFlag && scratch == |s.workers|
    case ExitWakeSet => Rested(s) && s.exitFlag
    case Finished => Rested(s) && s.exitFlag
  }

  predicate Inv(s: State) {
    var inv := Counters(s) && WorkersOk(s) && MasterOk(s);
    inv
  }

  // ----- every act keeps the invariant

  lemma InitInv(s: State)
    requires Init(s)
    ensures Inv(s)
  {
    CountNone(Entered, s.workers);
    CountNone(InWfi, s.workers);
    CountNone(Passed, s.workers);
  }

  /** One act of a worker keeps what the mode asks of it. */
  lemma AdvanceOk(s: State, i: nat)
    requires Inv(s) && i < |s.workers| && WorkEnabled(s, i)
    ensures WorkerOk(ModeOf(s), s.hist, Advance(s, s.workers[i], i + 1), i + 1)
  {
    assert WorkerOk(ModeOf(s), s.hist, s.workers[i], i + 1);
  }

  /** The loop and wfi counters follow the worker's program counter, in any mode. */
  lemma LoopCounts(s: State, i: nat)
    requires i < |s.workers| < WORD && s.inLoop == CountIf(Entered, s.workers)
    ensures WorkerAct(s, i).inLoop == CountIf(Entered, WorkerAct(s, i).workers)
  {
    var w' := Advance(s, s.workers[i], i + 1);
    assert Entered(w') <==> s.workers[i].pc == Enter || Entered(s.workers[i]);
    CountUpdate(Entered, s.workers, i, w');
    assert CountIf(Entered, s.workers[i := w']) <= |s.workers|;
  }

  lemma WfiCounts(s: State, i: nat)
    requires i < |s.workers| < WORD && s.wfi == CountIf(InWfi, s.workers)
    ensures WorkerAct(s, i).wfi == CountIf(InWfi, WorkerAct(s, i).workers)
  {
    var w' := Advance(s, s.workers[i], i + 1);
    assert InWfi(w') <==> s.workers[i].pc in {BumpWfi, Asleep, ClearIrq};
    CountUpdate(InWfi, s.workers, i, w');
    assert CountIf(InWfi, s.workers[i := w']) <= |s.workers|;
  }

  /** fini_count counts the workers through the join: at start-up ... */
  lemma FiniStarting(s: State, i: nat)
    requires i < |s.workers| < WORD && WorkEnabled(s, i) && Starts(s.workers[i])
    requires s.nthreads == 0 && !s.exitFlag && s.fini == CountIf(Passed, s.workers)
    ensures WorkerAct(s, i).fini == CountIf(Passed, WorkerAct(s, i).workers)
  {
    var w' := Advance(s, s.workers[i], i + 1);
    CountUpdate(Passed, s.workers, i, w');
    assert CountIf(Passed, s.workers[i := w']) <= |s.workers|;
  }

  /** ... and in a round. */
  lemma FiniInRound(s: State, i: nat)
    requires i < |s.workers| < WORD && WorkEnabled(s, i) && InRound(s.workers[i], s.hist, i + 1)
    requires s.fini == CountIf(Joined, s.workers)
    ensures WorkerAct(s, i).fini == CountIf(Joined, WorkerAct(s, i).workers)
  {
    var w' := Advance(s, s.workers[i], i + 1);
    CountUpdate(Joined, s.workers, i, w');
    assert CountIf(Joined, s.workers[i := w']) <= |s.workers|;
  }

  lemma WorkerCounts(s: State, i: nat)
    requires Inv(s) && i < |s.workers| && WorkEnabled(s, i)
    ensures Counters(WorkerAct(s, i))
  {
    var m := ModeOf(s);
    assert WorkerOk(m, s.hist, s.workers[i], i + 1);
    LoopCounts(s, i);
    WfiCounts(s, i);
    if m == Starting {
      FiniStarting(s, i);
    } else if m == Out {
      FiniInRound(s, i);
    } else {
      assert s.workers[i].pc != BumpFini;
    }
    SameMode(s, WorkerAct(s, i));
  }

  lemma SameMode(s: State, s': State)
    requires s'.master == s.master && s'.nthreads == s.nthreads
    ensures ModeOf(s') == ModeOf(s)
  {}

  /** What is asked of core 0 does not depend on what the workers do, once they are all in the loop. */
  lemma SameMaster(s: State, i: nat)
    requires MasterOk(s) && i < |s.workers|
    requires s.workers[i].pc == Enter ==> s.master == Boot
    ensures MasterOk(WorkerAct(s, i))
  {
    var s' := WorkerAct(s, i);
    if s.master != Boot {
      assert s'.inLoop == s.inLoop && |s'.workers| == |s.workers|;
      assert Rested(s') == Rested(s) && NotYet(s') == NotYet(s) && Armed(s') == Armed(s);
    }
  }

  lemma WorkerInv(s: State, i: nat)
    requires Inv(s) && i < |s.workers| && WorkEnabled(s, i)
    ensures Inv(WorkerAct(s, i))
  {
    WorkersKept(s, i);
    WorkerCounts(s, i);
    SameMaster(s, i);
  }

  lemma WorkersKept(s: State, i: nat)
    requires Inv(s) && i < |s.workers| && WorkEnabled(s, i)
    ensures WorkersOk(WorkerAct(s, i))
    ensures s.workers[i].pc == Enter ==> s.master == Boot
  {
    AdvanceOk(s, i);
    SameMode(s, WorkerAct(s, i));
    if s.workers[i].pc == Enter { EnterAtBoot(s, i); }
  }

  lemma EnterAtBoot(s: State, i: nat)
    requires Inv(s) && i < |s.workers| && s.workers[i].pc == Enter
    ensures s.master == Boot
  {
    assert WorkerOk(ModeOf(s), s.hist, s.workers[i], i + 1);
  }

  /** All workers have reached the count: what a successful wait_worker_wfi tells core 0. */
  lemma WfiFull(s: State)
    requires Inv(s) && s.wfi == |s.workers| && ModeOf(s) in {Starting, Calm, Still}
    ensures forall i :: 0 <= i < |s.workers| ==> Dormant(s.workers[i])
    ensures s.inLoop == |s.workers|
  {
    CountFull(InWfi, s.workers);
    CountFull(Entered, s.workers);
    forall i | 0 <= i < |s.workers| ensures Dormant(s.workers[i]) {
      assert WorkerOk(ModeOf(s), s.hist, s.workers[i], i + 1);
    }
  }

  /** Every worker has joined: what the poll on fini_count tells core 0. */
  lemma FiniFull(s: State)
    requires Inv(s) && ModeOf(s) == Out && s.fini == |s.workers|
    ensures forall i :: 0 <= i < |s.workers| ==>
              Joined(s.workers[i]) && Settled(s.workers[i].ran, s.workers[i].done, s.hist, i + 1)
  {
    CountFull(Joined, s.workers);
    forall i | 0 <= i < |s.workers|
      ensures Joined(s.workers[i]) && Settled(s.workers[i].ran, s.workers[i].done, s.hist, i + 1)
    {
      assert WorkerOk(Out, s.hist, s.workers[i], i + 1);
    }
  }

  /** An act of core 0 that touches no counter and no worker and keeps the mode. */
  lemma Carry(s: State, s': State)
    requires Inv(s) && s'.workers == s.workers && s'.hist == s.hist
    requires s'.inLoop == s.inLoop && s'.wfi == s.wfi && s'.fini == s.fini
    requires ModeOf(s') == ModeOf(s)
    requires s.master.RunReset? ==> s'.master.RunReset?
    ensures Counters(s') && WorkersOk(s')
  {}

  /** The same when the mode changes, given what the new mode asks of the workers. */
  lemma Shift(s: State, s': State)
    requires Inv(s) && s'.inLoop == s.inLoop && s'.wfi == s.wfi && s'.fini == s.fini
    requires s'.workers == s.workers && ModeOf(s') in {Calm, Still, Gone}
    requires WorkersOk(s')
    ensures Counters(s')
  {}

  lemma BootInv(s: State)
    requires Inv(s) && s.master == Boot && MainEnabled(s)
    ensures Inv(MainAct(s))
  {
    WfiFull(s);
    assert forall i :: 0 <= i < |s.workers| ==> WorkerOk(Starting, s.hist, s.workers[i], i + 1);
  }

  lemma CallInv(s: State, a: Act)
    requires Inv(s) && Enabled(s, a) && !a.Work? && !a.Main?
    ensures Inv(Apply(s, a))
  {
    Carry(s, Apply(s, a));
  }

  /** A successful wait for the workers turns the calm into stillness. */
  lemma WaitInv(s: State)
    requires Inv(s) && MainEnabled(s) && (s.master.PushWait? || s.master.ExitWait?)
    ensures Inv(MainAct(s))
  {
    WfiFull(s);
    forall i | 0 <= i < |s.workers| ensures WorkerOk(Still, s.hist, s.workers[i], i + 1) {
      assert WorkerOk(ModeOf(s), s.hist, s.workers[i], i + 1);
    }
    Shift(s, MainAct(s));
  }

  lemma PushInv(s: State)
    requires Inv(s) && (s.master.PushLoad? || s.master.PushFn? || s.master.PushData? || s.master.PushArgc?)
    ensures Inv(MainAct(s))
  {
    Carry(s, MainAct(s));
  }

  lemma PushTeamInv(s: State)
    requires Inv(s) && s.master.PushTeam?
    ensures Inv(MainAct(s))
  {
    assert forall i :: 0 <= i < |s.workers| ==> WorkerOk(Still, s.hist, s.workers[i], i + 1);
    Shift(s, MainAct(s));
  }

  /** run_empty accepts the pending dispatch, or returns at once. */
  lemma RunLoadInv(s: State)
    requires Inv(s) && s.master.RunLoad?
    ensures Inv(MainAct(s))
  {
    if s.nthreads == 0 {
      Carry(s, MainAct(s));
    } else {
      assert forall i :: 0 <= i < |s.workers| ==> WorkerOk(Still, s.hist, s.workers[i], i + 1);
      var h' := s.hist + [s.pending];
      assert h'[..|h'| - 1] == s.hist;
    }
  }

  lemma RunResetInv(s: State)
    requires Inv(s) && s.master.RunReset?
    ensures Inv(MainAct(s))
  {
    assert forall i :: 0 <= i < |s.workers| ==> WorkerOk(Before, s.hist, s.workers[i], i + 1);
  }

  lemma WakeInv(s: State)
    requires Inv(s) && MainEnabled(s) && (s.master.WakeLoad? || s.master.WakeWait?)
    ensures Inv(MainAct(s))
  {
    Carry(s, MainAct(s));
  }

  lemma WakeAllCounts(s: State)
    requires Counters(s) && forall i :: 0 <= i < |s.workers| ==> Dormant(s.workers[i])
    ensures CountIf(Entered, WakeAll(s.workers)) == s.inLoop == |s.workers|
    ensures CountIf(InWfi, WakeAll(s.workers)) == s.wfi
    ensures CountIf(Joined, WakeAll(s.workers)) == 0
  {
    var ws := WakeAll(s.workers);
    CountFull(Entered, s.workers);
    CountFull(Entered, ws);
    CountFull(InWfi, s.workers);
    CountFull(InWfi, ws);
    CountNone(Joined, ws);
  }

  lemma WakeSetInv(s: State)
    requires Inv(s) && s.master.WakeSet?
    ensures Inv(MainAct(s))
  {
    WokenToRun(s);
    WakeAllCounts(s);
    assert MasterOk(MainAct(s));
  }

  /** Core 0's own part of the team. */
  lemma TeamInv(s: State)
    requires Inv(s) && (s.master.RunTeam? || s.master.RunReadFn? || s.master.RunReadData?)
    ensures Inv(MainAct(s))
  {
    Carry(s, MainAct(s));
  }

  lemma StartInv(s: State)
    requires Inv(s) && s.master.RunReadArgc?
    ensures Inv(MainAct(s))
  {
    Carry(s, MainAct(s));
  }

  /** A team of one leaves every other core's share as it was. */
  lemma LoneShare(h: seq<Dispatch>, c: nat)
    requires h != [] && h[|h| - 1].nthreads <= c
    ensures Share(h, c) == Share(h[..|h| - 1], c)
  {}

  lemma BodyInv(s: State)
    requires Inv(s) && s.master.RunBody?
    ensures Inv(MainAct(s))
  {
    if s.master.n > 1 {
      Carry(s, MainAct(s));
    } else {
      forall i | 0 <= i < |s.workers| ensures WorkerOk(Calm, s.hist, s.workers[i], i + 1) {
        assert WorkerOk(Before, s.hist, s.workers[i], i + 1);
        LoneShare(s.hist, i + 1);
      }
      Shift(s, MainAct(s));
    }
  }

  lemma JoinInv(s: State)
    requires Inv(s) && MainEnabled(s) && (s.master.JoinLoad? || s.master.RunClear?)
    ensures Inv(MainAct(s))
  {
    Carry(s, MainAct(s));
  }

  lemma JoinWaitInv(s: State)
    requires Inv(s) && MainEnabled(s) && s.master.JoinWait?
    ensures Inv(MainAct(s))
  {
    FiniFull(s);
    Shift(s, MainAct(s));
  }

  lemma ExitInv(s: State)
    requires Inv(s) && MainEnabled(s)
    requires s.master.ExitTest? || s.master.ExitEmpty? || s.master.ExitLoad?
    ensures Inv(MainAct(s))
  {
    Carry(s, MainAct(s));
  }

  lemma ExitFlagInv(s: State)
    requires Inv(s) && MainEnabled(s) && (s.master.ExitFlag? || s.master.ExitWakeLoad? || s.master.ExitWakeWait?)
    ensures Inv(MainAct(s))
  {
    Carry(s, MainAct(s));
  }

  lemma WokenToLeave(s: State)
    requires WorkersOk(s) && ModeOf(s) == Still
    ensures forall i :: 0 <= i < |s.workers| ==> Dormant(s.workers[i])
    ensures forall i :: 0 <= i < |s.workers| ==> WorkerOk(Gone, s.hist, WakeAll(s.workers)[i], i + 1)
  {
    forall i | 0 <= i < |s.workers|
      ensures Dormant(s.workers[i]) && WorkerOk(Gone, s.hist, WakeAll(s.workers)[i], i + 1)
    {
      assert WorkerOk(Still, s.hist, s.workers[i], i + 1);
    }
  }

  lemma WokenToRun(s: State)
    requires WorkersOk(s) && ModeOf(s) == Before
    ensures forall i :: 0 <= i < |s.workers| ==> Dormant(s.workers[i])
    ensures forall i :: 0 <= i < |s.workers| ==> WorkerOk(Out, s.hist, WakeAll(s.workers)[i], i + 1)
  {
    forall i | 0 <= i < |s.workers|
      ensures Dormant(s.workers[i]) && WorkerOk(Out, s.hist, WakeAll(s.workers)[i], i + 1)
    {
      assert WorkerOk(Before, s.hist, s.workers[i], i + 1);
    }
  }

  lemma ExitWakeSetCounts(s: State)
    requires Inv(s) && s.master.ExitWakeSet?
    ensures Counters(MainAct(s))
  {
    WokenToLeave(s);
    WakeAllCounts(s);
  }

  lemma ExitWakeSetInv(s: State)
    requires Inv(s) && s.master.ExitWakeSet?
    ensures Inv(MainAct(s))
  {
    WokenToLeave(s);
    ExitWakeSetCounts(s);
    assert MasterOk(MainAct(s));
  }

  lemma MainInv(s: State)
    requires Inv(s) && MainEnabled(s)
    ensures Inv(MainAct(s))
  {
    var m := s.master;
    if m.Boot? {
      BootInv(s);
    } else if m.PushWait? || m.ExitWait? {
      WaitInv(s);
    } else if m.PushTeam? {
      PushTeamInv(s);
    } else if m.PushLoad? || m.PushFn? || m.PushData? || m.PushArgc? {
      PushInv(s);
    } else if m.RunLoad? {
      RunLoadInv(s);
    } else if m.RunReset? {
      RunResetInv(s);
    } else if m.WakeLoad? || m.WakeWait? {
      WakeInv(s);
    } else if m.WakeSet? {
      WakeSetInv(s);
    } else if m.RunTeam? || m.RunReadFn? || m.RunReadData? {
      TeamInv(s);
    } else if m.RunReadArgc? {
      StartInv(s);
    } else if m.RunBody? {
      BodyInv(s);
    } else if m.JoinWait? {
      JoinWaitInv(s);
    } else if m.JoinLoad? || m.RunClear? {
      JoinInv(s);
    } else if m.ExitWakeSet? {
      ExitWakeSetInv(s);
    } else if m.ExitTest? || m.ExitEmpty? || m.ExitLoad? {
      ExitInv(s);
    } else {
      ExitFlagInv(s);
    }
  }

  lemma ActInv(s: State, a: Act)
    requires Inv(s) && Enabled(s, a)
    ensures Inv(Apply(s, a))
  {
    if a.Work? {
      WorkerInv(s, a.i);
    } else if a.Main? {
      MainInv(s);
    } else {
      CallInv(s, a);
    }
  }

  lemma {:induction false} BehaviourInv(trace: seq<State>, acts: seq<Act>, j: nat)
    requires Behaviour(trace, acts) && j < |trace|
    ensures Inv(trace[j])
  {
    if j == 0 {
      InitInv(trace[0]);
    } else {
      BehaviourInv(trace, acts, j - 1);
      ActInv(trace[j - 1], acts[j - 1]);
    }
  }

  // ----- exactly once

  /** The tasks core c has called, and how many of the calls have returned. */
  function Ran(s: State, c: nat): seq<Task>
    requires c <= |s.workers|
  {
    if c == 0 then s.ran else s.workers[c - 1].ran
  }

  function Done(s: State, c: nat): nat
    requires c <= |s.workers|
  {
    if c == 0 then s.done else s.workers[c - 1].done
  }

  /** What the mode asks of a worker bounds its history. */
  lemma WorkerHistory(m: Mode, h: seq<Dispatch>, w: Worker, c: nat)
    requires WorkerOk(m, h, w, c) && (m == Starting ==> h == [])
    ensures w.ran == Share(h, c) || (h != [] && w.ran == Share(h[..|h| - 1], c) && w.done == |w.ran|)
    ensures w.done <= |w.ran| <= w.done + 1
  {}

  lemma StartingEmpty(s: State)
    requires MasterOk(s)
    ensures ModeOf(s) == Starting ==> s.hist == []
  {}

  lemma MasterHistory(s: State)
    requires MasterOk(s)
    ensures s.ran == Share(s.hist, 0) || (s.hist != [] && s.ran == Share(s.hist[..|s.hist| - 1], 0) && s.done == |s.ran|)
    ensures s.done <= |s.ran| <= s.done + 1
  {}

  /** In every interleaving, at every position: what a core has called is its share of the accepted
      dispatches, in order, possibly short of the last one, with the published words unmixed. */
  lemma NoForeignRun(trace: seq<State>, acts: seq<Act>, j: nat, c: nat)
    requires Behaviour(trace, acts) && j < |trace| && c <= |trace[j].workers|
    ensures var s := trace[j];
            || Ran(s, c) == Share(s.hist, c)
            || (s.hist != [] && Ran(s, c) == Share(s.hist[..|s.hist| - 1], c) && Done(s, c) == |Ran(s, c)|)
    ensures Done(trace[j], c) <= |Ran(trace[j], c)| <= Done(trace[j], c) + 1
  {
    BehaviourInv(trace, acts, j);
    var s := trace[j];
    if c > 0 {
      assert WorkerOk(ModeOf(s), s.hist, s.workers[c - 1], c);
      StartingEmpty(s);
      WorkerHistory(ModeOf(s), s.hist, s.workers[c - 1], c);
    } else {
      MasterHistory(s);
    }
  }

  /** Outside the event unit every core is through with its share. */
  lemma CoreSettled(s: State, c: nat)
    requires Inv(s) && c <= |s.workers| && (s.master == Idle || s.master == Finished)
    ensures Ran(s, c) == Share(s.hist, c) && Done(s, c) == |Ran(s, c)|
  {
    if c > 0 { assert WorkerOk(ModeOf(s), s.hist, s.workers[c - 1], c); }
  }

  /** Whenever core 0 is outside the event unit, so in particular when eu_run_empty has returned,
      every core has called and finished exactly its share of the accepted dispatches. */
  lemma ExactlyOnce(trace: seq<State>, acts: seq<Act>, j: nat, c: nat)
    requires Behaviour(trace, acts) && j < |trace| && c <= |trace[j].workers|
    requires trace[j].master == Idle
    ensures Ran(trace[j], c) == Share(trace[j].hist, c) && Done(trace[j], c) == |Ran(trace[j], c)|
  {
    BehaviourInv(trace, acts, j);
    CoreSettled(trace[j], c);
  }

  /** The acts that store a word of the event structure, whatever the word was. */
  predicate StoresEvent(s: State, a: Act) {
    && a.Main?
    && (s.master.PushFn? || s.master.PushData? || s.master.PushArgc? || s.master.PushTeam? || s.master.RunReset? || s.master.RunClear?)
  }

  /** The act stores a word of the event, or changes one in whatever way. */
  predicate TouchesEvent(s: State, a: Act)
    requires Enabled(s, a)
  {
    StoresEvent(s, a) || Apply(s, a).task != s.task || Apply(s, a).nthreads != s.nthreads
  }

  lemma OnlyThose(s: State, a: Act)
    requires Enabled(s, a) && TouchesEvent(s, a)
    ensures StoresEvent(s, a)
  {}

  /** Every act that touches the event structure happens while no worker is between its tests and its join: all sleep
      with no wake-up pending, or, for the store of 0 to nthreads after a round, have joined and are about to. */
  lemma NoTornEvent(trace: seq<State>, acts: seq<Act>, j: nat, i: nat)
    requires Behaviour(trace, acts) && j < |acts| && i < |trace[j].workers| && Enabled(trace[j], acts[j]) && TouchesEvent(trace[j], acts[j])
    ensures acts[j] == Main && Joined(trace[j].workers[i]) && (!trace[j].master.RunClear? ==> Dormant(trace[j].workers[i]))
    ensures !trace[j].workers[i].irq
    ensures trace[j].workers[i].pc == Asleep || (trace[j].master.RunClear? && trace[j].workers[i].pc == BumpWfi)
  {
    BehaviourInv(trace, acts, j);
    OnlyThose(trace[j], acts[j]);
    var s := trace[j];
    assert WorkerOk(ModeOf(s), s.hist, s.workers[i], i + 1);
  }

  /** The 32-bit counters never wrap. */
  lemma CountersBounded(trace: seq<State>, acts: seq<Act>, j: nat)
    requires Behaviour(trace, acts) && j < |trace|
    ensures trace[j].inLoop <= |trace[j].workers| && trace[j].wfi <= |trace[j].workers| && trace[j].fini <= |trace[j].workers|
  {
    BehaviourInv(trace, acts, j);
  }

  // ----- every call completes

  /** Acts a core can still take before it needs core 0. */
  function WorkerRank(w: Worker): nat {
    match w.pc
    case Asleep => if w.irq then 12 else 0
    case ClearIrq => 11
    case DropWfi => 10
    case Enter => 10
    case CheckExit => 9
    case CheckTeam => 8
    case CopyTeam => 7
    case ReadFn => 6
    case ReadData => 5
    case ReadArgc => 4
    case Running => 3
    case BumpFini => 2
    case BumpWfi => 1
    case Exited => 0
  }

  /** Acts left in core 0's call, plus what the workers will do after a wake-up that is still to be sent. */
  function MasterRank(m: MasterPc, wake: nat): nat {
    match m
    case Idle => 0
    case Finished => 0
    case Boot => 1
    case PushTeam(_) => 1
    case PushArgc(_) => 2
    case PushData(_) => 3
    case PushFn(_) => 4
    case PushWait(_, _) => 5
    case PushLoad(_) => 6
    case RunClear => 1
    case JoinWait(_) => 2
    case JoinLoad => 3
    case RunBody(_) => 4
    case RunReadArgc(_) => 5
    case RunReadData(_) => 6
    case RunReadFn(_) => 7
    case RunTeam(_) => 8
    case WakeSet(_) => 9 + wake
    case WakeWait(_, _) => 10 + wake
    case WakeLoad(_) => 11 + wake
    case RunReset(_) => 12 + wake
    case RunLoad => 13 + wake
    case ExitWakeSet => 1 + wake
    case ExitWakeWait(_) => 2 + wake
    case ExitWakeLoad => 3 + wake
    case ExitFlag => 4 + wake
    case ExitWait(_) => 5 + wake
    case ExitLoad => 6 + wake
    case ExitEmpty => 7 + wake
    case ExitTest => 8 + wake
  }

  function Rank(s: State): nat {
    MasterRank(s.master, 12 * |s.workers|) + Total(WorkerRank, s.workers)
  }

  lemma WorkerRankFalls(s: State, i: nat)
    requires i < |s.workers| && WorkEnabled(s, i) && (s.workers[i].pc == BumpWfi ==> !s.workers[i].irq)
    ensures Rank(WorkerAct(s, i)) < Rank(s)
  {
    var w' := Advance(s, s.workers[i], i + 1);
    assert WorkerRank(w') < WorkerRank(s.workers[i]);
    TotalUpdate(WorkerRank, s.workers, i, w');
  }

  lemma MasterRankFalls(s: State, wake: nat)
    requires MainEnabled(s) && !s.master.WakeSet? && !s.master.ExitWakeSet?
    ensures MasterRank(MainAct(s).master, wake) < MasterRank(s.master, wake) && MainAct(s).workers == s.workers
  {}

  lemma MainRankFalls(s: State)
    requires MainEnabled(s)
    ensures Rank(MainAct(s)) < Rank(s)
  {
    var s' := MainAct(s);
    if s.master.WakeSet? || s.master.ExitWakeSet? {
      TotalBound(WorkerRank, WakeAll(s.workers), 12);
    } else {
      MasterRankFalls(s, 12 * |s.workers|);
    }
  }

  /** A worker on its way to sleep has no wake-up pending. */
  lemma BumpAwake(s: State, i: nat)
    requires Inv(s) && i < |s.workers| && s.workers[i].pc == BumpWfi
    ensures !s.workers[i].irq
  {
    assert WorkerOk(ModeOf(s), s.hist, s.workers[i], i + 1);
  }

  /** Every act other than a new call brings the end of the call nearer. */
  lemma RankFalls(s: State, a: Act)
    requires Inv(s) && Enabled(s, a) && (a.Work? || a.Main?)
    ensures Rank(Apply(s, a)) < Rank(s)
  {
    if a.Work? {
      if s.workers[a.i].pc == BumpWfi { BumpAwake(s, a.i); }
      WorkerRankFalls(s, a.i);
    } else {
      MainRankFalls(s);
    }
  }

  /** As long as core 0 is inside a call, some core can move. */
  lemma Progress(s: State)
    requires Inv(s) && s.master != Idle && s.master != Finished
    ensures MainEnabled(s) || exists i :: 0 <= i < |s.workers| && WorkEnabled(s, i)
  {
    if !MainEnabled(s) {
      if s.master.JoinWait? {
        CountFull(Joined, s.workers);
        var i :| 0 <= i < |s.workers| && !Joined(s.workers[i]);
        assert WorkerOk(Out, s.hist, s.workers[i], i + 1);
        assert WorkEnabled(s, i);
      } else {
        CountFull(InWfi, s.workers);
        var i :| 0 <= i < |s.workers| && !InWfi(s.workers[i]);
        assert WorkerOk(ModeOf(s), s.hist, s.workers[i], i + 1);
        assert WorkEnabled(s, i);
      }
    }
  }

  /** From any position on, a run without new calls takes at most Rank acts, and if it cannot be
      continued then core 0's call has returned: no schedule hangs or deadlocks a call. */
  lemma {:induction false} CallsComplete(trace: seq<State>, acts: seq<Act>, i: nat)
    requires Behaviour(trace, acts) && i <= |acts|
    requires forall j :: i <= j < |acts| ==> acts[j].Work? || acts[j].Main?
    ensures |acts| - i <= Rank(trace[i])
    ensures var last := trace[|acts|];
            (forall a: Act :: Enabled(last, a) ==> !a.Work? && !a.Main?) ==> last.master == Idle || last.master == Finished
    decreases |acts| - i
  {
    if i < |acts| {
      BehaviourInv(trace, acts, i);
      RankFalls(trace[i], acts[i]);
      CallsComplete(trace, acts, i + 1);
    } else {
      BehaviourInv(trace, acts, i);
      var last := trace[i];
      if last.master != Idle && last.master != Finished {
        Progress(last);
        assert MainEnabled(last) ==> Enabled(last, Main);
        assert forall k :: 0 <= k < |last.workers| && WorkEnabled(last, k) ==> Enabled(last, Work(k));
      }
    }
  }

  // ----- eu_exit does not run what is pending

  predicate InExit(m: MasterPc) {
    m.ExitTest? || m.ExitEmpty? || m.ExitLoad? || m.ExitWait? || m.ExitFlag?
    || m.ExitWakeLoad? || m.ExitWakeWait? || m.ExitWakeSet? || m.Finished?
  }

  lemma ExitStep(s: State, a: Act)
    requires Enabled(s, a) && InExit(s.master)
    ensures var s' := Apply(s, a); InExit(s'.master) && s'.hist == s.hist && s'.pending == s.pending
  {}

  /** The comment at line 184 says the queue is emptied; the test is inverted, so a dispatch that is
      pending when eu_exit is called is never accepted: every core ends with its share of what was
      accepted before. */
  lemma {:induction false} ExitDropsPending(trace: seq<State>, acts: seq<Act>, i: nat, j: nat)
    requires Behaviour(trace, acts) && i < j < |trace| && acts[i] == CallExit
    ensures InExit(trace[j].master) && trace[j].hist == trace[i].hist && trace[j].pending == trace[i].pending
    ensures trace[j].master == Finished ==>
              forall c :: 0 <= c <= |trace[j].workers| ==> Ran(trace[j], c) == Share(trace[i].hist, c)
    decreases j
  {
    if i + 1 >= j {
    } else {
      ExitDropsPending(trace, acts, i, j - 1);
      ExitStep(trace[j - 1], acts[j - 1]);
    }
    if trace[j].master == Finished {
      BehaviourInv(trace, acts, j);
      forall c | 0 <= c <= |trace[j].workers| ensures Ran(trace[j], c) == Share(trace[i].hist, c) {
        CoreSettled(trace[j], c);
      }
    }
  }

  /** A run in which that happens: one core, one push, exit. */
  lemma ExitCanDrop(t: Task) returns (trace: seq<State>, acts: seq<Act>)
    ensures Behaviour(trace, acts)
    ensures var last := trace[|acts|];
            last.master == Finished && last.pending == Dispatch(t, 1) && last.hist == [] && last.ran == []
  {
    acts := [];
    trace := [ScriptState(t, 0)];
    while |acts| < 16
      invariant |acts| <= 16 && Behaviour(trace, acts) && trace[|acts|] == ScriptState(t, |acts|)
    {
      var k := |acts|;
      ScriptStep(t, k);
      trace, acts := trace + [ScriptState(t, k + 1)], acts + [ScriptAct(t, k)];
    }
  }

  function ScriptAct(t: Task, k: nat): Act {
    if k == 1 then CallPush(Dispatch(t, 1)) else if k == 8 then CallExit else Main
  }

  function ScriptState(t: Task, k: nat): State {
    var d := Dispatch(t, 1);
    var pcs := [Boot, Idle, PushLoad(d), PushWait(d, 0), PushFn(d), PushData(d), PushArgc(d), PushTeam(d), Idle,
                ExitTest, ExitLoad, ExitWait(0), ExitFlag, ExitWakeLoad, ExitWakeWait(0), ExitWakeSet];
    State(0, k > 12, 0, t, if k < 8 then 0 else 1, 0, if k < 16 then pcs[k] else Finished,
          t, [], 0, [], if k < 8 then Dispatch(t, 0) else d, [])
  }

  lemma ScriptStep(t: Task, k: nat)
    requires k < 16
    ensures Enabled(ScriptState(t, k), ScriptAct(t, k))
    ensures Apply(ScriptState(t, k), ScriptAct(t, k)) == ScriptState(t, k + 1)
  {
    assert WakeAll([]) == [];
  }
}
