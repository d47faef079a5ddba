/** Which data-mover calls come back: a bound on every run of a call, and for each call the condition under which it hangs,
    stated on the state in which it is made. */
module DataMoverCalls {
  import opened DataMover

  /** An act that starts no call. */
  predicate Quiet(a: Act) { a.Dm? || a.Client? || a.Complete? }

  /** The data mover polls an engine that is still busy. */
  predicate Spin(s: State, a: Act) { a.Dm? && s.dm.PollBusy? && s.outstanding > 0 }

  ghost predicate Run(trace: seq<State>, acts: seq<Act>) {
    && |trace| == |acts| + 1
    && forall j :: 0 <= j < |acts| ==> Enabled(trace[j], acts[j]) && trace[j + 1] == Apply(trace[j], acts[j])
  }

  /** A run from s without new calls. */
  ghost predicate QuietRun(s: State, trace: seq<State>, acts: seq<Act>) {
    Run(trace, acts) && trace[0] == s && forall j :: 0 <= j < |acts| ==> Quiet(acts[j])
  }

  /** Only a new call could go on from here. */
  predicate Settled(s: State) { !DmEnabled(s) && !ClientEnabled(s) && s.outstanding == 0 }

  // ----- every run is bounded

  const LAP: int := 30

  /** How far the data mover is from sleep, one more lap if it will find something to do. */
  function Place(s: State): int {
    match s.dm
    case Stopped => 0
    case ClearIrq => 0
    case Wfi => 1
    case BumpWfi => 2
    case SleepStat => 3 + (if s.stat != NoRequest then LAP else 0)
    case SleepFill => 4 + (if s.stat != NoRequest then LAP else 0) + More(s)
    case ClearStat => 5 + More(s)
    case SetValid => 6 + More(s)
    case PollBusy => 7 + More(s)
    case Switch => 8 + More(s)
    case CheckStat => 9 + More(s)
    case DropFill => 10
    case BumpBack => 11
    case Issue(_) => 13
    case Fetch(_, k) => 14 + (if k < 7 then 7 - k else 0)
    case ReadTwod(_) => 22
    case ReadBack => 23
    case WaitDma => 24
    case Top => 25
    case DropWfi => 26
  }

  function More(s: State): int { if s.ring.fill > 0 then LAP else 0 }

  /** What the client's remaining steps cost, with the laps of the data mover they cause. */
  function Cost(pc: ClientPc): int {
    match pc
    case Idle => 0
    case PollFill(_) => 5 * LAP + 4
    case LockCopy(_) => 5 * LAP + 3
    case ReadFront(_) => 5 * LAP + 2
    case Fill(_, _, k) => 4 * LAP + (if k < 8 then 8 - k else 0)
    case BumpFill(_, _) => 3 * LAP + 3
    case BumpFront => 2
    case UnlockCopy => 1
    case StartPoll => LAP + 2
    case StartSet => LAP + 1
    case DrainPoll => 5 * LAP
    case DrainSet => 4 * LAP
    case DrainFill => 2 * LAP + 10
    case DrainStat => 2 * LAP + 9
    case AskLock(_) => 2 * LAP + 8
    case AskInvalid(_) => 2 * LAP + 7
    case AskStat(_) => 2 * LAP + 6
    case AskPoll(_) => LAP + 5
    case AskSet(_) => LAP + 4
    case AskValid(_) => 2
    case AskUnlock(_) => 1
    case ExitStat => 2 * LAP + 4
    case ExitPoll => LAP + 2
    case ExitSet => LAP + 1
    case Gone => 0
  }

  /** What the data mover and the engine have to do. */
  function Due(s: State): int {
    Place(s) + 2 * LAP * s.ring.fill + (if s.irq || s.dm.ClearIrq? then LAP else 0) + s.outstanding
  }

  function Rank(s: State): int { Due(s) + Cost(s.client) }

  lemma RankNat(s: State)
    ensures Rank(s) >= 0
  {}

  lemma ServeFalls(s: State)
    requires DmEnabled(s) && Serving(s.dm)
    ensures Rank(Serve(s)) < Rank(s)
  {}

  lemma ReplyFalls(s: State)
    requires Replying(s.dm)
    ensures if Spin(s, Dm) then Rank(Reply(s)) <= Rank(s) + LAP else Rank(Reply(s)) < Rank(s)
  {
    ReplyFrame(s);
    ReplyPlace(s);
  }

  lemma ReplyPlace(s: State)
    requires Replying(s.dm)
    ensures if Spin(s, Dm) then Place(Reply(s)) <= Place(s) + LAP else Place(Reply(s)) < Place(s)
  {
    if s.dm.CheckStat? || s.dm.Switch? { FindPlace(s); } else { AnswerPlace(s); }
  }

  lemma FindPlace(s: State)
    requires s.dm.CheckStat? || s.dm.Switch?
    ensures Place(Reply(s)) < Place(s)
  {}

  lemma AnswerPlace(s: State)
    requires s.dm.PollBusy? || s.dm.SetValid? || s.dm.ClearStat?
    ensures Place(Reply(s)) < Place(s) || (Spin(s, Dm) && Place(Reply(s)) <= Place(s) + LAP)
  {}

  lemma RestFalls(s: State)
    requires DmEnabled(s) && Resting(s.dm)
    ensures Rank(Rest(s)) < Rank(s)
  {}

  lemma DmFalls(s: State)
    requires DmEnabled(s)
    ensures if Spin(s, Dm) then Rank(DmAct(s)) <= Rank(s) + LAP else Rank(DmAct(s)) < Rank(s)
  {
    if Serving(s.dm) {
      ServeFalls(s);
    } else if Replying(s.dm) {
      ReplyFalls(s);
    } else {
      RestFalls(s);
    }
  }

  /** What a client act can cost the data mover. */
  lemma PlaceMoves(s: State, s': State)
    requires s'.dm == s.dm && s'.ring.fill >= s.ring.fill
    ensures Place(s') <= Place(s) + (if s'.stat == s.stat then 0 else LAP) + (if s'.ring.fill == s.ring.fill then 0 else LAP)
  {}

  lemma DueMoves(s: State, s': State)
    requires s'.dm == s.dm && s'.ring.fill >= s.ring.fill && s'.outstanding == s.outstanding
    ensures Due(s') - Due(s) <= (if s'.irq == s.irq then 0 else LAP) + (if s'.stat == s.stat then 0 else LAP)
                                + 3 * LAP * (s'.ring.fill - s.ring.fill)
  {
    PlaceMoves(s, s');
  }

  lemma CopyCost(s: State)
    requires ClientEnabled(s) && Copying(s.client)
    ensures Copy(s).ring.fill >= s.ring.fill
    ensures Cost(Copy(s).client) - Cost(s.client) + 3 * LAP * (Copy(s).ring.fill - s.ring.fill) < 0
  {}

  lemma CopyFalls(s: State)
    requires ClientEnabled(s) && Copying(s.client)
    ensures Rank(Copy(s)) < Rank(s)
  {
    CopyFrame(s);
    CopyCost(s);
    DueMoves(s, Copy(s));
  }

  lemma DrainCost(s: State)
    requires Draining(s.client)
    ensures Cost(Drain(s).client) - Cost(s.client) + (if Drain(s).irq == s.irq then 0 else LAP) < 0
  {}

  /** A client act that costs more than what it makes the data mover do. */
  predicate Pays(s: State, s': State) {
    && s'.dm == s.dm && s'.ring.fill == s.ring.fill && s'.outstanding == s.outstanding
    && Cost(s'.client) - Cost(s.client) + (if s'.irq == s.irq then 0 else LAP) + (if s'.stat == s.stat then 0 else LAP) < 0
  }

  lemma Paid(s: State, s': State)
    requires Pays(s, s')
    ensures Rank(s') < Rank(s)
  {
    DueMoves(s, s');
  }

  lemma DrainPays(s: State)
    requires Draining(s.client)
    ensures Pays(s, Drain(s))
  {
    DrainFrame(s);
    DrainCost(s);
  }

  lemma DrainFalls(s: State)
    requires Draining(s.client)
    ensures Rank(Drain(s)) < Rank(s)
  {
    DrainPays(s);
    Paid(s, Drain(s));
  }

  predicate Leaving(pc: ClientPc) { pc.ExitStat? || pc.ExitPoll? || pc.ExitSet? }

  lemma LeavePays(s: State)
    requires ClientEnabled(s) && Leaving(s.client)
    ensures Pays(s, Ask(s))
  {
    match s.client
    case ExitStat => assert Ask(s) == s.(client := ExitPoll, stat := Exit);
    case ExitPoll => assert Ask(s) == s.(client := ExitSet);
    case ExitSet => assert Ask(s) == s.(client := Gone, irq := true);
  }

  lemma RequestPays(s: State)
    requires ClientEnabled(s) && !Copying(s.client) && !Draining(s.client) && !Leaving(s.client)
    ensures Pays(s, Ask(s))
  {
    AskFrame(s);
  }

  lemma AskFalls(s: State, s': State)
    requires ClientEnabled(s) && !Copying(s.client) && !Draining(s.client) && s' == Ask(s)
    ensures Rank(s') < Rank(s)
  {
    if Leaving(s.client) { LeavePays(s); } else { RequestPays(s); }
    Paid(s, s');
  }

  lemma ClientFalls(s: State)
    requires ClientEnabled(s)
    ensures Rank(ClientAct(s)) < Rank(s)
  {
    if Copying(s.client) {
      CopyFalls(s);
    } else if Draining(s.client) {
      DrainFalls(s);
    } else {
      AskFalls(s, ClientAct(s));
    }
  }

  /** Every act of a call brings its end nearer, but for a poll of a busy engine, which costs at most a lap. */
  lemma RankFalls(s: State, a: Act)
    requires Enabled(s, a) && Quiet(a)
    ensures if Spin(s, a) then Rank(Apply(s, a)) <= Rank(s) + LAP else Rank(Apply(s, a)) < Rank(s)
  {
    if a.Dm? {
      DmFalls(s);
    } else if a.Client? {
      ClientFalls(s);
    }
  }

  /** The polls of a busy engine in a run. */
  function Spins(trace: seq<State>, acts: seq<Act>): nat
    requires |trace| == |acts| + 1
    decreases |acts|
  {
    if acts == [] then 0 else (if Spin(trace[0], acts[0]) then 1 else 0) + Spins(trace[1..], acts[1..])
  }

  /** A run without new calls is as long as its rank allows, and a lap for every poll that found the engine busy: nothing
      else can keep a call from ending. */
  lemma {:induction false} CallsBounded(trace: seq<State>, acts: seq<Act>)
    requires |trace| > 0 && QuietRun(trace[0], trace, acts)
    ensures |acts| <= Rank(trace[0]) + (LAP + 1) * Spins(trace, acts)
    decreases |acts|
  {
    if acts == [] {
      RankNat(trace[0]);
    } else {
      RankFalls(trace[0], acts[0]);
      RestOfRun(trace, acts);
      CallsBounded(trace[1..], acts[1..]);
    }
  }

  lemma RestOfRun(trace: seq<State>, acts: seq<Act>)
    requires acts != [] && |trace| > 0 && QuietRun(trace[0], trace, acts)
    ensures QuietRun(trace[1], trace[1..], acts[1..]) && Enabled(trace[0], acts[0]) && trace[1] == Apply(trace[0], acts[0])
  {
    assert Enabled(trace[0], acts[0]) && trace[0 + 1] == Apply(trace[0], acts[0]);
    forall j | 0 <= j < |acts[1..]|
      ensures Enabled(trace[1..][j], acts[1..][j]) && trace[1..][j + 1] == Apply(trace[1..][j], acts[1..][j])
    {
      assert Enabled(trace[j + 1], acts[j + 1]);
    }
  }

  /** From every state some run without new calls comes to an end. */
  lemma {:induction false} Finish(s: State) returns (trace: seq<State>, acts: seq<Act>)
    ensures QuietRun(s, trace, acts) && Settled(trace[|acts|])
    decreases Rank(s) + 1
  {
    RankNat(s);
    if Settled(s) {
      trace, acts := [s], [];
    } else {
      var a := if s.outstanding > 0 then Complete else if DmEnabled(s) then Dm else Client;
      RankFalls(s, a);
      RankNat(Apply(s, a));
      var t, as' := Finish(Apply(s, a));
      trace, acts := [s] + t, [a] + as';
      Prepend(s, a, t, as');
    }
  }

  lemma Prepend(s: State, a: Act, trace: seq<State>, acts: seq<Act>)
    requires Enabled(s, a) && Run(trace, acts) && trace[0] == Apply(s, a)
    ensures Run([s] + trace, [a] + acts)
    ensures Quiet(a) && (forall j :: 0 <= j < |acts| ==> Quiet(acts[j])) ==> QuietRun(s, [s] + trace, [a] + acts)
    ensures ([s] + trace)[|[a] + acts|] == trace[|acts|]
  {
    var t, as' := [s] + trace, [a] + acts;
    forall j | 0 <= j < |as'|
      ensures Enabled(t[j], as'[j]) && t[j + 1] == Apply(t[j], as'[j])
    {
      if j > 0 { assert Enabled(trace[j - 1], acts[j - 1]); }
    }
  }

  // ----- what every run of a call keeps

  /** p survives every act but a call. */
  ghost predicate Keeps(p: State -> bool) {
    forall s: State, a: Act :: Inv(s) && p(s) && Enabled(s, a) && Quiet(a) ==> KeptBy(p, s, a)
  }

  predicate KeptBy(p: State -> bool, s: State, a: Act)
    requires Enabled(s, a)
  {
    p(Apply(s, a))
  }

  lemma {:induction false} Kept(trace: seq<State>, acts: seq<Act>, p: State -> bool)
    requires |trace| > 0 && QuietRun(trace[0], trace, acts) && Inv(trace[0]) && p(trace[0]) && Keeps(p)
    ensures Inv(trace[|acts|]) && p(trace[|acts|])
    decreases |acts|
  {
    if acts == [] {
    } else {
      RestOfRun(trace, acts);
      ActInv(trace[0], acts[0]);
      assert KeptBy(p, trace[0], acts[0]);
      Kept(trace[1..], acts[1..], p);
    }
  }

  /** A run of a call made in s, followed until only a new call could go on. */
  ghost predicate CallRun(s: State, call: Act, trace: seq<State>, acts: seq<Act>) {
    s.client == Idle && !Quiet(call) && QuietRun(Apply(s, call), trace, acts) && Settled(trace[|acts|])
  }

  /** The call is still going on. */
  predicate Hangs(s: State) { s.client != Idle && s.client != Gone }

  lemma SettledState(s: State)
    requires Inv(s) && Settled(s) && Hangs(s)
    ensures FullAsleep(s) || ReadyLost(s) || ExitHang(s)
  {
    StuckState(s);
  }

  lemma CallInv(s: State, call: Act)
    requires Inv(s) && s.client == Idle && !Quiet(call)
    ensures Enabled(s, call) && Inv(Apply(s, call))
  {
    ActInv(s, call);
  }

  // ----- copies

  /** The data mover goes to sleep, or sleeps, without having been told of anything. */
  predicate Unaware(s: State) { (s.dm.SleepStat? || s.dm.BumpWfi? || s.dm.Wfi?) && !s.irq && s.stat == NoRequest }

  function Waiting(t: Task): State -> bool { (s: State) => s.client == PollFill(t) && s.ring.fill == SLOTS && Unaware(s) }

  lemma DmUnaware(s: State)
    requires Unaware(s) && DmEnabled(s)
    ensures Unaware(DmAct(s)) && DmAct(s).client == s.client && DmAct(s).ring == s.ring
  {
    assert DmAct(s) == Rest(s);
  }

  lemma WaitingKept(t: Task)
    ensures Keeps(Waiting(t))
  {
    forall s: State, a: Act | Inv(s) && Waiting(t)(s) && Enabled(s, a) && Quiet(a)
      ensures KeptBy(Waiting(t), s, a)
    {
      if a.Dm? { DmUnaware(s); }
    }
  }

  function Noticed(): State -> bool {
    (s: State) => (s.client == Idle || Copying(s.client)) && (s.client.PollFill? && s.ring.fill == SLOTS ==> !Unaware(s))
  }

  lemma DmNoticed(s: State)
    requires Inv(s) && Noticed()(s) && DmEnabled(s)
    ensures Noticed()(DmAct(s))
  {
    if Serving(s.dm) { ServeFrame(s); } else if Replying(s.dm) { ReplyFrame(s); } else { RestFrame(s); }
  }

  lemma ClientNoticed(s: State)
    requires Inv(s) && Noticed()(s) && ClientEnabled(s)
    ensures Noticed()(ClientAct(s))
  {
    CopyFrame(s);
  }

  lemma NoticedKept()
    ensures Keeps(Noticed())
  {
    forall s: State, a: Act | Inv(s) && Noticed()(s) && Enabled(s, a) && Quiet(a)
      ensures KeptBy(Noticed(), s, a)
    {
      if a.Dm? { DmNoticed(s); } else if a.Client? { ClientNoticed(s); }
    }
  }

  /** A copy hangs if and only if it is called on a full ring while the data mover goes to sleep or sleeps unaware. */
  lemma CopyHangsExactly(s: State, t: Task, trace: seq<State>, acts: seq<Act>)
    requires Inv(s) && CallRun(s, CallCopy(t), trace, acts)
    ensures Hangs(trace[|acts|]) <==> s.ring.fill == SLOTS && Unaware(s)
    ensures !Hangs(trace[|acts|]) ==> trace[|acts|].client == Idle
  {
    CallInv(s, CallCopy(t));
    if s.ring.fill == SLOTS && Unaware(s) {
      WaitingKept(t);
      Kept(trace, acts, Waiting(t));
    } else {
      NoticedKept();
      Kept(trace, acts, Noticed());
      if Hangs(trace[|acts|]) { SettledState(trace[|acts|]); }
    }
  }

  // ----- dm_start and dm_wait

  predicate InStart(pc: ClientPc) { pc == Idle || pc.StartPoll? || pc.StartSet? }

  predicate InWait(pc: ClientPc) {
    || pc == Idle || pc.DrainPoll? || pc.DrainSet? || pc.DrainFill? || pc.DrainStat? || InRequest(pc, WaitIdle)
  }

  predicate InRequest(pc: ClientPc, q: Stat) { (Asking(pc) || Asked(pc) || pc.AskUnlock?) && pc.q == q }

  lemma PcKept(s: State)
    requires ClientEnabled(s)
    ensures InStart(s.client) ==> InStart(ClientAct(s).client)
    ensures InWait(s.client) ==> InWait(ClientAct(s).client)
    ensures InRequest(s.client, Ready) ==> InRequest(ClientAct(s).client, Ready) || ClientAct(s).client == Idle
    ensures !Copying(s.client) ==> ClientAct(s).hasty == s.hasty
  {
    if Draining(s.client) { DrainFrame(s); } else if !Copying(s.client) { AskFrame(s); }
  }

  lemma DmClient(s: State)
    requires DmEnabled(s)
    ensures DmAct(s).client == s.client && DmAct(s).hasty == s.hasty
  {
    if Serving(s.dm) { ServeFrame(s); } else if Replying(s.dm) { ReplyFrame(s); } else { RestFrame(s); }
  }

  function ByPc(p: ClientPc -> bool): State -> bool { (s: State) => p(s.client) }

  lemma ByPcKept(p: ClientPc -> bool)
    requires forall s: State :: ClientEnabled(s) && p(s.client) ==> p(ClientAct(s).client)
    ensures Keeps(ByPc(p))
  {
    forall s: State, a: Act | Inv(s) && ByPc(p)(s) && Enabled(s, a) && Quiet(a)
      ensures KeptBy(ByPc(p), s, a)
    {
      if a.Dm? { DmClient(s); }
    }
  }

  /** dm_start always returns. */
  lemma StartReturns(s: State, trace: seq<State>, acts: seq<Act>)
    requires Inv(s) && CallRun(s, CallStart, trace, acts)
    ensures trace[|acts|].client == Idle
  {
    CallInv(s, CallStart);
    forall x: State | ClientEnabled(x) && InStart(x.client) ensures InStart(ClientAct(x).client) { PcKept(x); }
    ByPcKept(InStart);
    Kept(trace, acts, ByPc(InStart));
    if Hangs(trace[|acts|]) { SettledState(trace[|acts|]); }
  }

  /** dm_wait always returns. */
  lemma WaitReturns(s: State, trace: seq<State>, acts: seq<Act>)
    requires Inv(s) && CallRun(s, CallWait, trace, acts)
    ensures trace[|acts|].client == Idle
  {
    CallInv(s, CallWait);
    forall x: State | ClientEnabled(x) && InWait(x.client) ensures InWait(ClientAct(x).client) { PcKept(x); }
    ByPcKept(InWait);
    Kept(trace, acts, ByPc(InWait));
    if Hangs(trace[|acts|]) { SettledState(trace[|acts|]); }
  }

  // ----- dm_wait_ready

  function Unhurried(): State -> bool { (s: State) => (s.client == Idle || InRequest(s.client, Ready)) && !s.hasty }

  lemma UnhurriedKept()
    ensures Keeps(Unhurried())
  {
    forall s: State, a: Act | Inv(s) && Unhurried()(s) && Enabled(s, a) && Quiet(a)
      ensures KeptBy(Unhurried(), s, a)
    {
      if a.Dm? { DmClient(s); } else if a.Client? { PcKept(s); }
    }
  }

  /** dm_wait_ready returns when no request is outstanding as it is called. */
  lemma ReadyReturns(s: State, trace: seq<State>, acts: seq<Act>)
    requires Inv(s) && CallRun(s, CallReady, trace, acts) && s.stat == NoRequest
    ensures trace[|acts|].client == Idle
  {
    CallInv(s, CallReady);
    UnhurriedKept();
    Kept(trace, acts, Unhurried());
    if Hangs(trace[|acts|]) { SettledState(trace[|acts|]); }
  }

  function Forgotten(): State -> bool { (s: State) => Asked(s.client) && s.client.q == Ready && Lost(s) }

  lemma DmForgotten(s: State)
    requires Inv(s) && Forgotten()(s) && DmEnabled(s)
    ensures Forgotten()(DmAct(s))
  {
    if Serving(s.dm) { ServeFrame(s); } else if Replying(s.dm) { ReplyFrame(s); } else { RestFrame(s); }
  }

  lemma ClientForgotten(s: State)
    requires Inv(s) && Forgotten()(s) && ClientEnabled(s)
    ensures Forgotten()(ClientAct(s))
  {
    AskFrame(s);
  }

  lemma ForgottenKept()
    ensures Keeps(Forgotten())
  {
    forall s: State, a: Act | Inv(s) && Forgotten()(s) && Enabled(s, a) && Quiet(a)
      ensures KeptBy(Forgotten(), s, a)
    {
      if a.Dm? { DmForgotten(s); } else if a.Client? { ClientForgotten(s); }
    }
  }

  /** The request is written over one that is still to be cleared. */
  lemma WriteOver(s: State) returns (trace: seq<State>, acts: seq<Act>)
    requires Inv(s) && s.client == Idle && s.stat != NoRequest
    ensures QuietRun(Apply(s, CallReady), trace, acts) && Forgotten()(trace[|acts|])
  {
    assert s.dm.ClearStat? && !s.mutex;
    var s0 := s.(client := AskLock(Ready), hasty := true);
    var s1 := s0.(client := AskInvalid(Ready), mutex := true);
    var s2 := s1.(client := AskStat(Ready), valid := false);
    var s3 := s2.(client := AskPoll(Ready), stat := Ready);
    trace, acts := [s2, s3], [Client];
    assert QuietRun(s2, trace, acts);
    Prepend(s1, Client, trace, acts);
    trace, acts := [s1] + trace, [Client] + acts;
    Prepend(s0, Client, trace, acts);
    trace, acts := [s0] + trace, [Client] + acts;
  }

  lemma {:induction false} Join(s: State, t0: seq<State>, a0: seq<Act>, t1: seq<State>, a1: seq<Act>) returns (trace: seq<State>, acts: seq<Act>)
    requires QuietRun(s, t0, a0) && QuietRun(t0[|a0|], t1, a1)
    ensures QuietRun(s, trace, acts) && trace[|acts|] == t1[|a1|]
    decreases |a0|
  {
    if a0 == [] {
      trace, acts := t1, a1;
    } else {
      RestOfRun(t0, a0);
      trace, acts := Join(t0[1], t0[1..], a0[1..], t1, a1);
      Prepend(s, a0[0], trace, acts);
      trace, acts := [s] + trace, [a0[0]] + acts;
    }
  }

  /** dm_wait_ready can hang if and only if a request is outstanding as it is called. */
  lemma ReadyHangsExactly(s: State)
    requires Inv(s) && s.client == Idle
    ensures (exists trace: seq<State>, acts: seq<Act> :: CallRun(s, CallReady, trace, acts) && Hangs(trace[|acts|])) <==> s.stat != NoRequest
  {
    if s.stat != NoRequest {
      var t0, a0 := WriteOver(s);
      var w := t0[|a0|];
      var t1, a1 := Finish(w);
      CallInv(s, CallReady);
      KeptInv(t0, a0);
      ForgottenKept();
      Kept(t1, a1, Forgotten());
      var trace, acts := Join(Apply(s, CallReady), t0, a0, t1, a1);
      assert CallRun(s, CallReady, trace, acts) && Hangs(trace[|acts|]);
    }
    if trace: seq<State>, acts: seq<Act> :| CallRun(s, CallReady, trace, acts) && Hangs(trace[|acts|]) {
      if s.stat == NoRequest { ReadyReturns(s, trace, acts); }
    }
  }

  lemma KeptInv(trace: seq<State>, acts: seq<Act>)
    requires |trace| > 0 && QuietRun(trace[0], trace, acts) && Inv(trace[0])
    ensures Inv(trace[|acts|])
  {
    var p: State -> bool := (s: State) => true;
    forall s: State, a: Act | Inv(s) && p(s) && Enabled(s, a) && Quiet(a)
      ensures KeptBy(p, s, a)
    {}
    Kept(trace, acts, p);
  }

  // ----- dm_exit

  /** A run of dm_exit from the write of its request on. */
  ghost predicate ExitRun(w: State, trace: seq<State>, acts: seq<Act>) {
    w.client == ExitStat && QuietRun(Ask(w), trace, acts) && Settled(trace[|acts|])
  }

  /** The data mover has decided to sleep, or does. */
  predicate Sleepy(s: State) { s.dm.BumpWfi? || Dozing(s.dm) }

  /** It will not wake by itself. */
  predicate Sound(s: State) { (s.dm.BumpWfi? || s.dm.Wfi?) && !s.irq }

  /** The exit request is wiped by the clearing of an earlier one. */
  predicate Wiped(s: State) {
    Exiting(s.client) && (if s.dm.ClearStat? then s.stat == Exit else s.stat == NoRequest && !s.dm.Stopped? && !Answering(s.dm))
  }

  /** The request stands. */
  predicate Standing(s: State) {
    && Exiting(s.client) && s.stat == Exit && !s.dm.PollBusy? && !s.dm.SetValid? && !s.dm.ClearStat?
    && (s.client.Gone? && (s.dm.BumpWfi? || s.dm.Wfi?) ==> s.irq)
  }

  /** The data mover is awake and will see the request before it sleeps. */
  predicate Awake(s: State) { Standing(s) && s.client == ExitPoll && !Sleepy(s) }

  /** It sleeps until the client's wake-up. */
  predicate Calmed(s: State) { s.client.Gone? || ((s.client == ExitPoll || s.client == ExitSet) && Sound(s)) }

  lemma ServeExiting(s: State)
    requires DmEnabled(s) && Serving(s.dm)
    ensures Wiped(s) ==> Wiped(Serve(s))
    ensures Standing(s) ==> Standing(Serve(s))
    ensures Awake(s) ==> Awake(Serve(s))
    ensures Calmed(s) ==> Calmed(Serve(s))
  {
    ServeFrame(s);
    ServeKeeps(s);
  }

  lemma ServeKeeps(s: State)
    requires DmEnabled(s) && Serving(s.dm)
    ensures Wiped(s) ==> Wiped(Serve(s))
    ensures Standing(s) ==> Standing(Serve(s))
  {
    ServeFrame(s);
  }

  lemma ReplyExiting(s: State)
    requires Replying(s.dm)
    ensures Wiped(s) ==> Wiped(Reply(s))
    ensures Standing(s) ==> Standing(Reply(s))
    ensures Awake(s) ==> Awake(Reply(s))
    ensures Calmed(s) ==> Calmed(Reply(s))
  {
    ReplyFrame(s);
  }

  lemma RestExiting(s: State)
    requires DmEnabled(s) && Resting(s.dm)
    ensures Wiped(s) ==> Wiped(Rest(s))
    ensures Standing(s) ==> Standing(Rest(s))
    ensures Awake(s) ==> Awake(Rest(s))
    ensures Calmed(s) ==> Calmed(Rest(s))
  {
    RestFrame(s);
  }

  lemma DmExiting(s: State)
    requires DmEnabled(s)
    ensures Wiped(s) ==> Wiped(DmAct(s))
    ensures Standing(s) ==> Standing(DmAct(s))
    ensures Awake(s) ==> Awake(DmAct(s))
    ensures Calmed(s) ==> Calmed(DmAct(s))
  {
    if Serving(s.dm) { ServeExiting(s); } else if Replying(s.dm) { ReplyExiting(s); } else { RestExiting(s); }
  }

  lemma ClientExiting(s: State)
    requires Inv(s) && ClientEnabled(s) && Exiting(s.client)
    ensures Wiped(s) ==> Wiped(ClientAct(s))
    ensures Standing(s) ==> Standing(ClientAct(s))
    ensures !Awake(s)
    ensures Calmed(s) ==> Calmed(ClientAct(s))
  {}

  lemma ExitingAct(s: State, a: Act)
    requires Inv(s) && Enabled(s, a) && Quiet(a) && Exiting(s.client)
    ensures Wiped(s) ==> Wiped(Apply(s, a))
    ensures Standing(s) ==> Standing(Apply(s, a))
    ensures Awake(s) ==> Awake(Apply(s, a))
    ensures Calmed(s) ==> Calmed(Apply(s, a))
  {
    if a.Dm? {
      DmExiting(s);
    } else if a.Client? {
      ClientExiting(s);
    }
  }

  lemma WipedKept()
    ensures Keeps(Wiped)
  {
    forall s: State, a: Act | Inv(s) && Wiped(s) && Enabled(s, a) && Quiet(a)
      ensures KeptBy(Wiped, s, a)
    {
      ExitingAct(s, a);
    }
  }

  lemma StandingKept()
    ensures Keeps(Standing)
  {
    forall s: State, a: Act | Inv(s) && Standing(s) && Enabled(s, a) && Quiet(a)
      ensures KeptBy(Standing, s, a)
    {
      ExitingAct(s, a);
    }
  }

  lemma AwakeKept()
    ensures Keeps(Awake)
  {
    forall s: State, a: Act | Inv(s) && Awake(s) && Enabled(s, a) && Quiet(a)
      ensures KeptBy(Awake, s, a)
    {
      ExitingAct(s, a);
    }
  }

  lemma RestingKept()
    ensures Keeps(Calmed)
  {
    forall s: State, a: Act | Inv(s) && Calmed(s) && Enabled(s, a) && Quiet(a)
      ensures KeptBy(Calmed, s, a)
    {
      ExitingAct(s, a);
    }
  }

  lemma WriteExit(w: State)
    requires Inv(w) && w.client == ExitStat
    ensures Inv(Ask(w)) && (if w.dm.ClearStat? then Wiped(Ask(w)) else Standing(Ask(w)))
  {
    ActInv(w, Client);
  }

  lemma SettledDm(s: State)
    requires Inv(s) && Settled(s)
    ensures s.dm == Stopped || (s.dm == Wfi && !s.irq && s.wfi == 1)
  {}

  /** The data mover leaves if and only if it is not about to clear a request when the exit request is written. */
  lemma ExitLeavesExactly(w: State, trace: seq<State>, acts: seq<Act>)
    requires Inv(w) && ExitRun(w, trace, acts)
    ensures trace[|acts|].dm == Stopped <==> !w.dm.ClearStat?
    ensures w.dm.ClearStat? ==> trace[|acts|].client == Gone
  {
    WriteExit(w);
    if w.dm.ClearStat? {
      WipedKept();
      Kept(trace, acts, Wiped);
    } else {
      StandingKept();
      Kept(trace, acts, Standing);
    }
    SettledDm(trace[|acts|]);
  }

  lemma AwakeHangs(s: State, trace: seq<State>, acts: seq<Act>)
    requires Inv(s) && Awake(s) && QuietRun(s, trace, acts)
    ensures trace[|acts|].client == ExitPoll
  {
    AwakeKept();
    Kept(trace, acts, Awake);
  }

  lemma SoundReturns(w: State, trace: seq<State>, acts: seq<Act>)
    requires Inv(w) && ExitRun(w, trace, acts) && Sound(w)
    ensures trace[|acts|].client == Gone
  {
    WriteExit(w);
    RestingKept();
    Kept(trace, acts, Calmed);
  }

  /** A data mover that is being woken can get past the poll. */
  lemma {:induction false} WakeUp(s: State) returns (trace: seq<State>, acts: seq<Act>)
    requires Inv(s) && Standing(s) && s.client == ExitPoll && !Sound(s)
    ensures QuietRun(s, trace, acts) && Inv(trace[|acts|]) && Awake(trace[|acts|])
    decreases Rank(s) + 1
  {
    RankNat(s);
    if !Sleepy(s) {
      trace, acts := [s], [];
    } else {
      DmExiting(s);
      RankFalls(s, Dm);
      RankNat(DmAct(s));
      ActInv(s, Dm);
      WakeStep(s);
      trace, acts := WakeUp(DmAct(s));
      Prepend(s, Dm, trace, acts);
      trace, acts := [s] + trace, [Dm] + acts;
    }
  }

  lemma WakeStep(s: State)
    requires Standing(s) && s.client == ExitPoll && !Sound(s) && Sleepy(s)
    ensures DmEnabled(s) ==> DmAct(s).client == ExitPoll && !Sound(DmAct(s))
    ensures s.wfi > 0 ==> DmEnabled(s)
  {}

  /** dm_exit can hang if and only if, as its request is written, the data mover is not about to clear a request and does
      not sleep soundly. */
  lemma ExitHangsExactly(w: State)
    requires Inv(w) && w.client == ExitStat
    ensures (exists trace: seq<State>, acts: seq<Act> :: ExitRun(w, trace, acts) && Hangs(trace[|acts|]))
            <==> !w.dm.ClearStat? && !Sound(w)
  {
    if !w.dm.ClearStat? && !Sound(w) {
      WriteExit(w);
      var t0, a0 := WakeUp(Ask(w));
      var t1, a1 := Finish(t0[|a0|]);
      AwakeHangs(t0[|a0|], t1, a1);
      var trace, acts := Join(Ask(w), t0, a0, t1, a1);
      assert ExitRun(w, trace, acts) && Hangs(trace[|acts|]);
    }
    if trace: seq<State>, acts: seq<Act> :| ExitRun(w, trace, acts) && Hangs(trace[|acts|]) {
      if w.dm.ClearStat? {
        ExitLeavesExactly(w, trace, acts);
      } else if Sound(w) {
        SoundReturns(w, trace, acts);
      }
    }
  }

  /** It can return if and only if the data mover then is about to clear a request or to sleep, or sleeps. */
  lemma ExitReturnsExactly(w: State)
    requires Inv(w) && w.client == ExitStat
    ensures (exists trace: seq<State>, acts: seq<Act> :: ExitRun(w, trace, acts) && trace[|acts|].client == Gone)
            <==> w.dm.ClearStat? || Sleepy(w)
  {
    if w.dm.ClearStat? {
      var trace, acts := Finish(Ask(w));
      ExitLeavesExactly(w, trace, acts);
      assert ExitRun(w, trace, acts) && trace[|acts|].client == Gone;
    } else if Sleepy(w) {
      WriteExit(w);
      var t0, a0 := PollInTime(Ask(w));
      var t1, a1 := Finish(t0[|a0|]);
      KeptInv(t0, a0);
      GoneStays(t1, a1);
      var trace, acts := Join(Ask(w), t0, a0, t1, a1);
      assert ExitRun(w, trace, acts) && trace[|acts|].client == Gone;
    }
    if trace: seq<State>, acts: seq<Act> :| ExitRun(w, trace, acts) && trace[|acts|].client == Gone {
      if !w.dm.ClearStat? && !Sleepy(w) {
        WriteExit(w);
        AwakeHangs(Ask(w), trace, acts);
      }
    }
  }

  lemma GoneStays(trace: seq<State>, acts: seq<Act>)
    requires |trace| > 0 && QuietRun(trace[0], trace, acts) && Inv(trace[0]) && trace[0].client == Gone
    ensures trace[|acts|].client == Gone
  {
    var p: State -> bool := (s: State) => s.client == Gone;
    forall s: State, a: Act | Inv(s) && p(s) && Enabled(s, a) && Quiet(a)
      ensures KeptBy(p, s, a)
    {
      if a.Dm? { DmClient(s); }
    }
    Kept(trace, acts, p);
  }

  /** The client polls while the data mover counts as asleep. */
  lemma PollInTime(s: State) returns (trace: seq<State>, acts: seq<Act>)
    requires Inv(s) && s.client == ExitPoll && Sleepy(s)
    ensures QuietRun(s, trace, acts) && trace[|acts|].client == Gone
  {
    if s.dm.BumpWfi? {
      var s' := s.(dm := Wfi, wfi := s.wfi + 1);
      trace, acts := PollNow(s');
      Prepend(s, Dm, trace, acts);
      trace, acts := [s] + trace, [Dm] + acts;
    } else {
      trace, acts := PollNow(s);
    }
  }

  lemma PollNow(s: State) returns (trace: seq<State>, acts: seq<Act>)
    requires s.client == ExitPoll && s.wfi > 0
    ensures QuietRun(s, trace, acts) && trace[|acts|].client == Gone
  {
    var s1 := s.(client := ExitSet);
    var s2 := s1.(client := Gone, irq := true);
    trace, acts := [s1, s2], [Client];
    assert QuietRun(s1, trace, acts);
    Prepend(s, Client, trace, acts);
    trace, acts := [s] + trace, [Client] + acts;
  }

  /** A request about to be cleared is in reach of dm_exit. */
  lemma ExitWipedHappens(t: Task) returns (w: State)
    ensures Reachable(w) && w.client == ExitStat && w.dm.ClearStat?
  {
    var x := StartAsleep(t);
    x := WriteReady(x);
    x := WakeReady(x);
    x := Rouse(x);
    x := AnswerReady(x);
    Reached(x, CallExit);
    w := x.(client := ExitStat);
  }

  lemma ReachableInv(s: State)
    requires Reachable(s)
    ensures Inv(s)
  {
    var trace, acts: seq<Act> :| Behaviour(trace, acts) && trace[|acts|] == s;
    BehaviourInv(trace, acts, |acts|);
  }

  /** What a call reaches from a reachable state is reachable. */
  lemma {:induction false} RunReached(s: State, trace: seq<State>, acts: seq<Act>)
    requires Reachable(s) && QuietRun(s, trace, acts)
    ensures Reachable(trace[|acts|])
    decreases |acts|
  {
    if acts == [] {
    } else {
      RestOfRun(trace, acts);
      Reached(s, acts[0]);
      RunReached(trace[1], trace[1..], acts[1..]);
    }
  }

  /** From the start of the program some run comes to a dm_exit after whose request every schedule ends the same way:
      dm_exit has returned, and the data mover sleeps with no wake-up pending and has not left. */
  lemma NeverLeaves(t: Task) returns (w: State, trace: seq<State>, acts: seq<Act>)
    ensures Reachable(w) && ExitRun(w, trace, acts)
    ensures forall tr: seq<State>, ac: seq<Act> :: ExitRun(w, tr, ac) ==>
              Reachable(tr[|ac|]) && tr[|ac|].client == Gone && tr[|ac|].dm == Wfi && !tr[|ac|].irq && tr[|ac|].outstanding == 0
  {
    w := ExitWipedHappens(t);
    ReachableInv(w);
    ClientReached(w, Ask(w));
    trace, acts := Finish(Ask(w));
    forall tr: seq<State>, ac: seq<Act> | ExitRun(w, tr, ac)
      ensures Reachable(tr[|ac|]) && tr[|ac|].client == Gone && tr[|ac|].dm == Wfi && !tr[|ac|].irq && tr[|ac|].outstanding == 0
    {
      ExitLeavesExactly(w, tr, ac);
      RunReached(Ask(w), tr, ac);
      ReachableInv(tr[|ac|]);
      SettledDm(tr[|ac|]);
    }
  }
}
